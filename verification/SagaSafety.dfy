/** What holds at every point of every run of the mint sagas, whatever the chain, the allocator
    and the database answer, and where the answers of a real chain break the naive reading. */
module SagaSafety {
  import opened Wrappers
  import opened MintSaga

  function EventCount(outbox: seq<Event>, id: nat): nat {
    if outbox == [] then 0
    else EventCount(outbox[..|outbox| - 1], id) + if outbox[|outbox| - 1].saga == id then 1 else 0
  }

  lemma EventCountAppend(outbox: seq<Event>, e: Event, id: nat)
    ensures EventCount(outbox + [e], id) == EventCount(outbox, id) + if e.saga == id then 1 else 0
  {
  }

  lemma {:induction false} EventCountFresh(outbox: seq<Event>, id: nat)
    requires forall k | 0 <= k < |outbox| :: outbox[k].saga != id
    ensures EventCount(outbox, id) == 0
  {
    if outbox != [] {
      EventCountFresh(outbox[..|outbox| - 1], id);
    }
  }

  /** The event a settled saga owes its readers. */
  function OutcomeEvent(id: nat, s: Saga): Event {
    if s.state.Completed? then ExecutedEvent(id, s) else FailedEvent(id, s)
  }

  ghost predicate SagaConsistent(db: Db, id: nat)
    requires id < |db.sagas|
  {
    var s := db.sagas[id];
    && s.state.IsMint()
    && (s.completedAt.Some? <==> s.state.IsTerminal())
    && EventCount(db.outbox, id) == if s.state.IsTerminal() then 1 else 0
  }

  ghost predicate EventConsistent(db: Db, k: nat)
    requires k < |db.outbox|
  {
    var e := db.outbox[k];
    e.saga < |db.sagas| && e == OutcomeEvent(e.saga, db.sagas[e.saga])
  }

  predicate DistinctAllocations(sagas: seq<Saga>) {
    forall i, j | 0 <= i < j < |sagas| :: sagas[i].req.allocation != sagas[j].req.allocation
  }

  /** Exactly one event per settled saga, none for a pending one, and that event tells the
      outcome in the saga's own terms. */
  ghost predicate Consistent(db: Db) {
    && (forall i | 0 <= i < |db.sagas| :: SagaConsistent(db, i))
    && (forall k | 0 <= k < |db.outbox| :: EventConsistent(db, k))
    && DistinctAllocations(db.sagas)
  }

  lemma AcceptConsistent(db: Db, s: Saga)
    requires Consistent(db) && !AllocationTaken(db, s.req.allocation)
    requires s.state.Created? && s.completedAt.None?
    ensures Consistent(db.(sagas := db.sagas + [s]))
  {
    var next := db.(sagas := db.sagas + [s]);
    forall i | 0 <= i < |next.sagas| ensures SagaConsistent(next, i) {
      if i < |db.sagas| {
        assert SagaConsistent(db, i);
      } else {
        forall k | 0 <= k < |db.outbox| ensures db.outbox[k].saga != i {
          assert EventConsistent(db, k);
        }
        EventCountFresh(db.outbox, i);
      }
    }
    forall k | 0 <= k < |next.outbox| ensures EventConsistent(next, k) {
      assert EventConsistent(db, k);
    }
  }

  lemma SavedConsistent(db: Db, id: nat, s: Saga)
    requires Consistent(db) && id < |db.sagas| && !db.sagas[id].state.IsTerminal()
    requires s.state.IsMint() && !s.state.IsTerminal() && s.completedAt.None? && s.req == db.sagas[id].req
    ensures Consistent(db.(sagas := db.sagas[id := s]))
  {
    var next := db.(sagas := db.sagas[id := s]);
    forall i | 0 <= i < |next.sagas| ensures SagaConsistent(next, i) {
      assert SagaConsistent(db, i);
    }
    forall k | 0 <= k < |next.outbox| ensures EventConsistent(next, k) {
      PendingHasNoEvent(db, k);
      assert EventConsistent(db, k);
    }
  }

  lemma SettledConsistent(db: Db, id: nat, s: Saga)
    requires Consistent(db) && id < |db.sagas| && !db.sagas[id].state.IsTerminal()
    requires s.state.IsMint() && s.state.IsTerminal() && s.completedAt.Some? && s.req == db.sagas[id].req
    ensures Consistent(db.(sagas := db.sagas[id := s], outbox := db.outbox + [OutcomeEvent(id, s)]))
  {
    var e := OutcomeEvent(id, s);
    var next := db.(sagas := db.sagas[id := s], outbox := db.outbox + [e]);
    forall i | 0 <= i < |next.sagas| ensures SagaConsistent(next, i) {
      assert SagaConsistent(db, i);
      EventCountAppend(db.outbox, e, i);
    }
    forall k | 0 <= k < |next.outbox| ensures EventConsistent(next, k) {
      if k < |db.outbox| {
        PendingHasNoEvent(db, k);
        assert EventConsistent(db, k);
      }
    }
  }

  lemma StepConsistent(cfg: Config, db: Db, step: Step)
    requires Consistent(db) && Enabled(db, step)
    ensures Consistent(Next(cfg, db, step))
  {
    if step.commit {
      match step
      case Accept(req, now, _) =>
        if !AllocationTaken(db, req.allocation) {
          AcceptConsistent(db, NewSaga(req, now));
        }
      case Advance(id, now, r, _) =>
        var o := Handle(cfg, id, db.sagas[id], now, r);
        var called := db.(held := HeldAfter(cfg, db.held, id, db.sagas[id], now, r));
        HeldIrrelevant(db, called);
        assert SagaConsistent(db, id);
        if o.Saved? {
          SavedConsistent(called, id, Stamped(o.saga, now));
        } else if o.Settled? {
          assert o.event == OutcomeEvent(id, Stamped(o.saga, now));
          SettledConsistent(called, id, Stamped(o.saga, now));
        }
    } else if step.Advance? {
      HeldIrrelevant(db, Next(cfg, db, step));
    }
  }

  lemma HeldIrrelevant(db: Db, other: Db)
    requires Consistent(db) && other.sagas == db.sagas && other.outbox == db.outbox
    ensures Consistent(other)
  {
    forall i | 0 <= i < |other.sagas| ensures SagaConsistent(other, i) {
      assert SagaConsistent(db, i);
    }
    forall k | 0 <= k < |other.outbox| ensures EventConsistent(other, k) {
      assert EventConsistent(db, k);
    }
  }

  lemma {:induction false} CountPositive(outbox: seq<Event>, k: nat)
    requires k < |outbox|
    ensures EventCount(outbox, outbox[k].saga) > 0
  {
    if k < |outbox| - 1 {
      CountPositive(outbox[..|outbox| - 1], k);
    }
  }

  lemma PendingHasNoEvent(db: Db, k: nat)
    requires Consistent(db) && k < |db.outbox|
    ensures db.outbox[k].saga < |db.sagas| && db.sagas[db.outbox[k].saga].state.IsTerminal()
  {
    assert EventConsistent(db, k);
    CountPositive(db.outbox, k);
    assert SagaConsistent(db, db.outbox[k].saga);
  }

  lemma {:induction false} RunConsistent(cfg: Config, db: Db, steps: seq<Step>, k: nat)
    requires ValidRun(cfg, db, steps) && k <= |steps| && Consistent(db)
    ensures Consistent(After(cfg, db, steps, k))
  {
    if k > 0 {
      RunConsistent(cfg, db, steps, k - 1);
      AfterStep(cfg, db, steps, k - 1);
      StepConsistent(cfg, After(cfg, db, steps, k - 1), steps[k - 1]);
    }
  }

  // ------------------------------------------------------------------ the transition table

  /** One step moves no saga except along an edge of the table, touches no settled saga and
      keeps every request. */
  ghost predicate Follows(before: Db, after: Db) {
    && |before.sagas| <= |after.sagas| <= |before.sagas| + 1
    && (forall i | 0 <= i < |before.sagas| ::
          && after.sagas[i].req == before.sagas[i].req
          && after.sagas[i].startedAt == before.sagas[i].startedAt
          && (after.sagas[i].state == before.sagas[i].state
              || MintStateTransition(before.sagas[i].state, after.sagas[i].state))
          && (before.sagas[i].state.IsTerminal() ==> after.sagas[i] == before.sagas[i]))
    && before.outbox <= after.outbox
  }

  lemma HandlerFollowsTable(cfg: Config, id: nat, s: Saga, now: Time, r: Replies)
    ensures var o := Handle(cfg, id, s, now, r);
            !o.Aborted? ==>
              && o.saga.req == s.req && o.saga.startedAt == s.startedAt && !s.state.IsTerminal()
              && (o.saga.state == s.state || MintStateTransition(s.state, o.saga.state))
  {
  }

  /** Compensation never consults the transition table and still only ever takes its edges. */
  lemma StepFollowsTable(cfg: Config, db: Db, step: Step)
    requires Enabled(db, step)
    ensures Follows(db, Next(cfg, db, step))
  {
    hide Handle, MintStateTransition, HeldAfter;
    if step.Advance? {
      HandlerFollowsTable(cfg, step.id, db.sagas[step.id], step.now, step.replies);
    }
  }

  /** Between any two points of a run a settled saga and every staged event stay as they were. */
  lemma {:induction false} SettledForever(cfg: Config, db: Db, steps: seq<Step>, j: nat, k: nat, i: nat)
    requires ValidRun(cfg, db, steps) && j <= k <= |steps|
    requires i < |After(cfg, db, steps, j).sagas|
    ensures i < |After(cfg, db, steps, k).sagas|
    ensures After(cfg, db, steps, k).sagas[i].req == After(cfg, db, steps, j).sagas[i].req
    ensures After(cfg, db, steps, j).sagas[i].state.IsTerminal() ==>
              After(cfg, db, steps, k).sagas[i] == After(cfg, db, steps, j).sagas[i]
    ensures After(cfg, db, steps, j).outbox <= After(cfg, db, steps, k).outbox
    decreases k - j
  {
    if j < k {
      SettledForever(cfg, db, steps, j, k - 1, i);
      AfterStep(cfg, db, steps, k - 1);
      StepFollowsTable(cfg, After(cfg, db, steps, k - 1), steps[k - 1]);
    }
  }

  /** A handler that returns an error without writing: only an unreadable approval count. No
      advance is ever refused by the transition table. */
  lemma AbortsOnlyWithoutApprovals(cfg: Config, id: nat, s: Saga, now: Time, r: Replies)
    requires s.state.IsMint() && !s.state.IsTerminal()
    ensures Handle(cfg, id, s, now, r).Aborted? <==>
              s.state.AwaitingApprovals? && !TimedOut(cfg, s, now) && r.approvals.Err?
  {
  }

  // --------------------------------------------------------------------------------- bars

  ghost predicate HoldsNothing(db: Db, i: nat)
    requires i < |db.sagas|
  {
    forall h | h in db.held :: h.allocation != db.sagas[i].req.allocation
  }

  ghost predicate FailedHoldNothing(db: Db) {
    forall i | 0 <= i < |db.sagas| && db.sagas[i].state.IsFailure() :: HoldsNothing(db, i)
  }

  predicate ReleasesSucceed(steps: seq<Step>) {
    forall k | 0 <= k < |steps| :: steps[k].Advance? ==> steps[k].replies.releaseOk
  }

  /** The step records a failure whose bars were not given back, and there were some. */
  predicate LeavesBars(cfg: Config, db: Db, step: Step)
    requires Enabled(db, step)
  {
    && step.Advance?
    && step.commit
    && !step.replies.releaseOk
    && (var s := db.sagas[step.id];
        && Compensates(Handle(cfg, step.id, s, step.now, step.replies))
        && exists h :: h in HeldAfter(cfg, db.held, step.id, s, step.now, step.replies) && h.allocation == s.req.allocation)
  }

  lemma StepReleases(cfg: Config, db: Db, step: Step)
    requires Enabled(db, step) && Consistent(db) && FailedHoldNothing(db) && !LeavesBars(cfg, db, step)
    ensures FailedHoldNothing(Next(cfg, db, step))
  {
    var next := Next(cfg, db, step);
    forall i | 0 <= i < |next.sagas| && next.sagas[i].state.IsFailure() ensures HoldsNothing(next, i) {
      if i < |db.sagas| {
        SagaReleases(cfg, db, step, i);
      }
    }
  }

  lemma SagaReleases(cfg: Config, db: Db, step: Step, i: nat)
    requires Enabled(db, step) && Consistent(db) && FailedHoldNothing(db) && !LeavesBars(cfg, db, step)
    requires i < |db.sagas| && Next(cfg, db, step).sagas[i].state.IsFailure()
    ensures HoldsNothing(Next(cfg, db, step), i)
  {
    if step.Advance? && i != step.id {
      hide Handle;
      assert db.sagas[i].req.allocation != db.sagas[step.id].req.allocation;
    }
  }

  lemma LeavingStep(cfg: Config, db: Db, step: Step)
    requires Enabled(db, step) && LeavesBars(cfg, db, step)
    ensures !FailedHoldNothing(Next(cfg, db, step))
  {
    assert !HoldsNothing(Next(cfg, db, step), step.id);
  }

  ghost predicate LeavesBarsAt(cfg: Config, steps: seq<Step>, k: nat)
    requires ValidRun(cfg, EMPTY, steps) && k < |steps|
  {
    AfterStep(cfg, EMPTY, steps, k);
    LeavesBars(cfg, After(cfg, EMPTY, steps, k), steps[k])
  }

  ghost predicate ReleasedAt(cfg: Config, steps: seq<Step>, k: nat)
    requires ValidRun(cfg, EMPTY, steps) && k <= |steps|
  {
    FailedHoldNothing(After(cfg, EMPTY, steps, k))
  }

  lemma ReleasedStep(cfg: Config, steps: seq<Step>, k: nat)
    requires ValidRun(cfg, EMPTY, steps) && k < |steps| && ReleasedAt(cfg, steps, k)
    ensures ReleasedAt(cfg, steps, k + 1) <==> !LeavesBarsAt(cfg, steps, k)
  {
    hide After, ValidRun, FailedHoldNothing, Next, LeavesBars;
    RunConsistent(cfg, EMPTY, steps, k);
    AfterStep(cfg, EMPTY, steps, k);
    if LeavesBarsAt(cfg, steps, k) {
      LeavingStep(cfg, After(cfg, EMPTY, steps, k), steps[k]);
    } else {
      StepReleases(cfg, After(cfg, EMPTY, steps, k), steps[k]);
    }
  }

  /** In any run no failed saga holds a bar at any point exactly if no failure is recorded over bars
      whose release failed. */
  lemma {:induction false} ReleasedThroughoutExactly(cfg: Config, steps: seq<Step>, n: nat)
    requires ValidRun(cfg, EMPTY, steps) && n <= |steps|
    ensures (forall k | 0 <= k <= n :: ReleasedAt(cfg, steps, k)) <==> (forall k | 0 <= k < n :: !LeavesBarsAt(cfg, steps, k))
  {
    if n > 0 {
      hide ValidRun, ReleasedAt, LeavesBarsAt;
      ReleasedThroughoutExactly(cfg, steps, n - 1);
      if ReleasedAt(cfg, steps, n - 1) {
        ReleasedStep(cfg, steps, n - 1);
      }
    }
  }

  /** So if every release succeeds, no failed saga holds a bar, even one that a failing reservation
      left behind. */
  lemma FailedSagasHoldNothing(cfg: Config, steps: seq<Step>, k: nat)
    requires ValidRun(cfg, EMPTY, steps) && k <= |steps| && ReleasesSucceed(steps)
    ensures FailedHoldNothing(After(cfg, EMPTY, steps, k))
  {
    ReleasedThroughoutExactly(cfg, steps, k);
    assert ReleasedAt(cfg, steps, k);
  }

  /** A saga past its reservation still holds every bar it was given. */
  ghost predicate Backed(db: Db, i: nat)
    requires i < |db.sagas|
  {
    var s := db.sagas[i];
    s.state.Proposing? || s.state.AwaitingApprovals? || s.state.Executing? || s.state.Completed? ==>
      forall b | b in s.bars :: Hold(s.req.allocation, b) in db.held
  }

  /** The compensation gave the bars back and the write recording the failure was lost. */
  predicate LosesBars(cfg: Config, db: Db, step: Step)
    requires Enabled(db, step)
  {
    && step.Advance?
    && !step.commit
    && step.replies.releaseOk
    && !db.sagas[step.id].state.ReservingBars?
    && db.sagas[step.id].bars != []
    && Compensates(Handle(cfg, step.id, db.sagas[step.id], step.now, step.replies))
  }

  lemma LosingStep(cfg: Config, db: Db, step: Step)
    requires Enabled(db, step) && LosesBars(cfg, db, step) && Backed(db, step.id)
    ensures step.id < |Next(cfg, db, step).sagas| && !Backed(Next(cfg, db, step), step.id)
  {
    var next := Next(cfg, db, step);
    var s := next.sagas[step.id];
    assert s.bars[0] in s.bars && Hold(s.req.allocation, s.bars[0]) !in next.held;
  }

  lemma KeepingStep(cfg: Config, db: Db, step: Step, i: nat)
    requires Enabled(db, step) && Consistent(db) && !LosesBars(cfg, db, step)
    requires i < |db.sagas| && Backed(db, i)
    ensures Backed(Next(cfg, db, step), i)
  {
  }

  ghost predicate AllBacked(db: Db) {
    forall i | 0 <= i < |db.sagas| :: Backed(db, i)
  }

  /** Exactly the steps that leave a saga going on without its bars. */
  lemma BackingLostExactly(cfg: Config, db: Db, step: Step)
    requires Enabled(db, step) && Consistent(db) && AllBacked(db)
    ensures AllBacked(Next(cfg, db, step)) <==> !LosesBars(cfg, db, step)
  {
    if LosesBars(cfg, db, step) {
      LosingStep(cfg, db, step);
    } else {
      forall i | 0 <= i < |Next(cfg, db, step).sagas| ensures Backed(Next(cfg, db, step), i) {
        if i < |db.sagas| {
          KeepingStep(cfg, db, step, i);
        }
      }
    }
  }

  ghost predicate LosesBarsAt(cfg: Config, steps: seq<Step>, k: nat)
    requires ValidRun(cfg, EMPTY, steps) && k < |steps|
  {
    AfterStep(cfg, EMPTY, steps, k);
    LosesBars(cfg, After(cfg, EMPTY, steps, k), steps[k])
  }

  ghost predicate BackedAt(cfg: Config, steps: seq<Step>, k: nat)
    requires ValidRun(cfg, EMPTY, steps) && k <= |steps|
  {
    AllBacked(After(cfg, EMPTY, steps, k))
  }

  lemma BackedStep(cfg: Config, steps: seq<Step>, k: nat)
    requires ValidRun(cfg, EMPTY, steps) && k < |steps| && BackedAt(cfg, steps, k)
    ensures BackedAt(cfg, steps, k + 1) <==> !LosesBarsAt(cfg, steps, k)
  {
    hide After, ValidRun, AllBacked, Next, LosesBars;
    RunConsistent(cfg, EMPTY, steps, k);
    AfterStep(cfg, EMPTY, steps, k);
    BackingLostExactly(cfg, After(cfg, EMPTY, steps, k), steps[k]);
  }

  /** In any run every saga going on is backed at every point exactly if no step loses bars. */
  lemma {:induction false} BackedThroughoutExactly(cfg: Config, steps: seq<Step>, n: nat)
    requires ValidRun(cfg, EMPTY, steps) && n <= |steps|
    ensures (forall k | 0 <= k <= n :: BackedAt(cfg, steps, k)) <==> (forall k | 0 <= k < n :: !LosesBarsAt(cfg, steps, k))
  {
    if n > 0 {
      hide ValidRun, BackedAt, LosesBarsAt;
      BackedThroughoutExactly(cfg, steps, n - 1);
      if BackedAt(cfg, steps, n - 1) {
        BackedStep(cfg, steps, n - 1);
      }
    }
  }

  // ------------------------------------------------------------- executions on the chain

  /** Step k called ExecuteMint for saga i and the chain answered with a transaction. */
  ghost predicate ExecutedAt(cfg: Config, steps: seq<Step>, k: nat, i: nat)
    requires ValidRun(cfg, EMPTY, steps) && k < |steps|
  {
    && steps[k].Advance? && steps[k].id == i
    && (AfterStep(cfg, EMPTY, steps, k);
        After(cfg, EMPTY, steps, k).sagas[i].state.Executing?)
    && steps[k].replies.execute.Ok?
  }

  ghost predicate ExecutedBy(cfg: Config, steps: seq<Step>, k: nat, i: nat)
    requires ValidRun(cfg, EMPTY, steps) && k <= |steps|
  {
    exists j | 0 <= j < k :: ExecutedAt(cfg, steps, j, i)
  }

  ghost predicate ExecutionsRecorded(cfg: Config, steps: seq<Step>, i: nat)
    requires ValidRun(cfg, EMPTY, steps)
  {
    forall j | 0 <= j < |steps| && ExecutedAt(cfg, steps, j, i) :: steps[j].commit
  }

  /** When no write that follows an accepted execution is lost, a saga is completed exactly if
      the chain executed its mint. A completed saga was executed in any case. */
  lemma {:induction false} CompletedIffExecuted(cfg: Config, steps: seq<Step>, k: nat, i: nat)
    requires ValidRun(cfg, EMPTY, steps) && k <= |steps|
    requires i < |After(cfg, EMPTY, steps, k).sagas|
    ensures After(cfg, EMPTY, steps, k).sagas[i].state.Completed? ==> ExecutedBy(cfg, steps, k, i)
    ensures ExecutionsRecorded(cfg, steps, i) && ExecutedBy(cfg, steps, k, i) ==>
              After(cfg, EMPTY, steps, k).sagas[i].state.Completed?
  {
    if k > 0 {
      var before := After(cfg, EMPTY, steps, k - 1);
      var after := After(cfg, EMPTY, steps, k);
      AfterStep(cfg, EMPTY, steps, k - 1);
      if i < |before.sagas| {
        CompletedIffExecuted(cfg, steps, k - 1, i);
        StepFollowsTable(cfg, before, steps[k - 1]);
        if after.sagas[i].state.Completed? && !before.sagas[i].state.Completed? {
          assert ExecutedAt(cfg, steps, k - 1, i);
        }
        if ExecutedBy(cfg, steps, k, i) && ExecutionsRecorded(cfg, steps, i) {
          var j :| 0 <= j < k && ExecutedAt(cfg, steps, j, i);
          if j < k - 1 {
            assert ExecutedBy(cfg, steps, k - 1, i);
          }
        }
      } else {
        forall j | 0 <= j < k ensures !ExecutedAt(cfg, steps, j, i) {
          TableGrows(cfg, steps, j, k - 1);
          AfterStep(cfg, EMPTY, steps, j);
        }
      }
    }
  }

  /** Step q recorded that the chain refused to execute saga i's mint. */
  ghost predicate RefusedAt(cfg: Config, steps: seq<Step>, q: nat, i: nat)
    requires ValidRun(cfg, EMPTY, steps) && q < |steps|
  {
    && steps[q].Advance? && steps[q].id == i
    && (AfterStep(cfg, EMPTY, steps, q);
        After(cfg, EMPTY, steps, q).sagas[i].state.Executing?)
    && steps[q].replies.execute.Err?
    && steps[q].commit
  }

  ghost predicate RecordedBy(cfg: Config, steps: seq<Step>, k: nat, i: nat)
    requires ValidRun(cfg, EMPTY, steps) && k <= |steps|
  {
    exists p | 0 <= p < k :: ExecutedAt(cfg, steps, p, i) && steps[p].commit
  }

  ghost predicate LostThenRefused(cfg: Config, steps: seq<Step>, k: nat, i: nat)
    requires ValidRun(cfg, EMPTY, steps) && k <= |steps|
  {
    exists p, q | 0 <= p < q < k :: ExecutedAt(cfg, steps, p, i) && !steps[p].commit && RefusedAt(cfg, steps, q, i)
  }

  /** A saga that was executing has since then done nothing but end. */
  lemma {:induction false} ExecutingOrSettled(cfg: Config, steps: seq<Step>, j: nat, k: nat, i: nat)
    requires ValidRun(cfg, EMPTY, steps) && j <= k <= |steps|
    requires i < |After(cfg, EMPTY, steps, j).sagas| && After(cfg, EMPTY, steps, j).sagas[i].state.Executing?
    ensures i < |After(cfg, EMPTY, steps, k).sagas|
    ensures After(cfg, EMPTY, steps, k).sagas[i].state.Executing? || After(cfg, EMPTY, steps, k).sagas[i].state.IsTerminal()
    decreases k - j
  {
    if j < k {
      ExecutingOrSettled(cfg, steps, j, k - 1, i);
      AfterStep(cfg, EMPTY, steps, k - 1);
      StepFollowsTable(cfg, After(cfg, EMPTY, steps, k - 1), steps[k - 1]);
    }
  }

  /** What a step does to a saga in execution. */
  lemma ExecutingStep(cfg: Config, steps: seq<Step>, k: nat, i: nat)
    requires ValidRun(cfg, EMPTY, steps) && k < |steps|
    requires i < |After(cfg, EMPTY, steps, k).sagas| && After(cfg, EMPTY, steps, k).sagas[i].state.Executing?
    ensures i < |After(cfg, EMPTY, steps, k + 1).sagas|
    ensures var next := After(cfg, EMPTY, steps, k + 1).sagas[i].state;
            && (next.Completed? <==> ExecutedAt(cfg, steps, k, i) && steps[k].commit)
            && (next.IsFailure() <==> RefusedAt(cfg, steps, k, i))
  {
    hide ValidRun, After;
    AfterStep(cfg, EMPTY, steps, k);
  }

  lemma NotExecutedBefore(cfg: Config, steps: seq<Step>, k: nat, i: nat)
    requires ValidRun(cfg, EMPTY, steps) && k < |steps| && i >= |After(cfg, EMPTY, steps, k).sagas|
    ensures !ExecutedBy(cfg, steps, k + 1, i)
  {
    forall j | 0 <= j < k + 1 ensures !ExecutedAt(cfg, steps, j, i) {
      TableGrows(cfg, steps, j, k);
      AfterStep(cfg, EMPTY, steps, j);
    }
  }

  /** A mint that was executed before its saga settled: the step that settled it, and the last
      execution before. */
  lemma {:induction false} SettledAfterExecution(cfg: Config, steps: seq<Step>, k: nat, i: nat)
    requires ValidRun(cfg, EMPTY, steps) && k <= |steps|
    requires i < |After(cfg, EMPTY, steps, k).sagas| && ExecutedBy(cfg, steps, k, i)
    ensures After(cfg, EMPTY, steps, k).sagas[i].state.Completed? ==> RecordedBy(cfg, steps, k, i)
    ensures After(cfg, EMPTY, steps, k).sagas[i].state.IsFailure() ==> LostThenRefused(cfg, steps, k, i)
  {
    var before := After(cfg, EMPTY, steps, k - 1);
    if i >= |before.sagas| {
      NotExecutedBefore(cfg, steps, k - 1, i);
    } else {
      var j :| 0 <= j < k && ExecutedAt(cfg, steps, j, i);
      AfterStep(cfg, EMPTY, steps, j);
      ExecutingOrSettled(cfg, steps, j, k - 1, i);
      if before.sagas[i].state.IsTerminal() {
        SettledForever(cfg, EMPTY, steps, k - 1, k, i);
        assert j != k - 1;
        assert ExecutedBy(cfg, steps, k - 1, i);
        SettledAfterExecution(cfg, steps, k - 1, i);
      } else {
        ExecutingStep(cfg, steps, k - 1, i);
        if RefusedAt(cfg, steps, k - 1, i) {
          assert j < k - 1;
          if steps[j].commit {
            ExecutingStep(cfg, steps, j, i);
            SettledForever(cfg, EMPTY, steps, j + 1, k - 1, i);
          }
        }
      }
    }
  }

  lemma RecordedCompletes(cfg: Config, steps: seq<Step>, p: nat, k: nat, i: nat)
    requires ValidRun(cfg, EMPTY, steps) && p < k <= |steps|
    requires ExecutedAt(cfg, steps, p, i) && steps[p].commit
    ensures i < |After(cfg, EMPTY, steps, k).sagas| && After(cfg, EMPTY, steps, k).sagas[i].state.Completed?
  {
    hide ValidRun, After, Next;
    AfterStep(cfg, EMPTY, steps, p);
    ExecutingStep(cfg, steps, p, i);
    SettledForever(cfg, EMPTY, steps, p + 1, k, i);
  }

  lemma RefusedFails(cfg: Config, steps: seq<Step>, q: nat, k: nat, i: nat)
    requires ValidRun(cfg, EMPTY, steps) && q < k <= |steps| && RefusedAt(cfg, steps, q, i)
    ensures i < |After(cfg, EMPTY, steps, k).sagas| && After(cfg, EMPTY, steps, k).sagas[i].state.IsFailure()
  {
    hide ValidRun, After, Next;
    AfterStep(cfg, EMPTY, steps, q);
    ExecutingStep(cfg, steps, q, i);
    SettledForever(cfg, EMPTY, steps, q + 1, k, i);
  }

  /** A saga is completed exactly if an execution of its mint was recorded, and it failed although
      its mint was executed exactly if the write of an execution was lost and a later refusal
      was recorded. */
  lemma ExecutedOutcomeExactly(cfg: Config, steps: seq<Step>, k: nat, i: nat)
    requires ValidRun(cfg, EMPTY, steps) && k <= |steps|
    requires i < |After(cfg, EMPTY, steps, k).sagas|
    ensures After(cfg, EMPTY, steps, k).sagas[i].state.Completed? <==> RecordedBy(cfg, steps, k, i)
    ensures ExecutedBy(cfg, steps, k, i) && After(cfg, EMPTY, steps, k).sagas[i].state.IsFailure()
            <==> LostThenRefused(cfg, steps, k, i)
  {
    CompletedIffExecuted(cfg, steps, k, i);
    if ExecutedBy(cfg, steps, k, i) {
      SettledAfterExecution(cfg, steps, k, i);
    }
    hide ValidRun, After, ExecutedAt, RefusedAt;
    if p :| 0 <= p < k && ExecutedAt(cfg, steps, p, i) && steps[p].commit {
      RecordedCompletes(cfg, steps, p, k, i);
    }
    if p, q :| 0 <= p < q < k && ExecutedAt(cfg, steps, p, i) && !steps[p].commit && RefusedAt(cfg, steps, q, i) {
      RefusedFails(cfg, steps, q, k, i);
    }
  }

  lemma {:induction false} TableGrows(cfg: Config, steps: seq<Step>, j: nat, k: nat)
    requires ValidRun(cfg, EMPTY, steps) && j <= k <= |steps|
    ensures |After(cfg, EMPTY, steps, j).sagas| <= |After(cfg, EMPTY, steps, k).sagas|
    decreases k - j
  {
    if j < k {
      TableGrows(cfg, steps, j, k - 1);
      AfterStep(cfg, EMPTY, steps, k - 1);
      StepFollowsTable(cfg, After(cfg, EMPTY, steps, k - 1), steps[k - 1]);
    }
  }

  /** The condition is needed. A chain that refuses to execute a proposal twice, as the deployed
      controller does, fails a saga whose mint went through: the first execution's write is
      lost and the retry is refused. */
  lemma ExecutedMintCanFail(cfg: Config, db: Db, id: nat, now: Time, tx: string, r: Replies)
    requires Consistent(db) && IsNextPending(db, now, id) && db.sagas[id].state.Executing?
    ensures var first := Advance(id, now, r.(execute := Ok(tx)), false);
            var second := Advance(id, now, r.(execute := Err(ErrProposalNotFound)), true);
            && ValidRun(cfg, db, [first, second])
            && After(cfg, db, [first, second], 2).sagas[id].state.Failed?
  {
    var first := Advance(id, now, r.(execute := Ok(tx)), false);
    var second := Advance(id, now, r.(execute := Err(ErrProposalNotFound)), true);
    var mid := Next(cfg, db, first);
    assert mid == db;
    var steps := [first, second];
    assert steps[1..] == [second] && [second][1..] == [];
    assert ValidRun(cfg, Next(cfg, mid, second), []);
    assert ValidRun(cfg, mid, [second]);
    var end := Next(cfg, mid, second);
    assert After(cfg, end, [], 0) == end;
    assert After(cfg, mid, [second], 1) == end;
  }
}
