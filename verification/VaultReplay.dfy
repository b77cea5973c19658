/** The vault inventory against the log of its movements: when replaying the log gives the
    inventory, for requests that overlap in any way. */
module VaultReplay {
  import opened Wrappers
  import opened VaultLedger

  /** Where the log says a bar is. */
  function Replayed(log: seq<Movement>, serial: Serial): Option<VaultId> {
    if log == [] then None
    else if log[|log| - 1].serial == serial then Some(log[|log| - 1].to)
    else Replayed(log[..|log| - 1], serial)
  }

  /** Every movement starts where the log before it had left the bar. */
  predicate Chained(log: seq<Movement>) {
    forall k | 0 <= k < |log| :: log[k].from == Replayed(log[..k], log[k].serial)
  }

  function Located(bars: seq<Bar>, serial: Serial): Option<VaultId> {
    match Position(bars, serial)
    case None => None
    case Some(i) => Some(bars[i].vault)
  }

  /** A change of the bar's place is still to be written down. */
  predicate Pending(w: World, serial: Serial) {
    exists r | r in w.open :: w.open[r].Moved? && w.open[r].movement.serial == serial
  }

  /** The same by a request other than r. */
  predicate PendingElsewhere(w: World, r: nat, serial: Serial) {
    exists q | q in w.open :: q != r && w.open[q].Moved? && w.open[q].movement.serial == serial
  }

  /** The log chains, and replays to the inventory for every bar whose change of place is not
      still waiting to be written down. */
  ghost predicate Agrees(w: World) {
    && Chained(w.log)
    && (forall serial | !Pending(w, serial) :: Replayed(w.log, serial) == Located(w.bars, serial))
  }

  /** Only bars of the inventory are waiting. */
  ghost predicate MovedKnown(w: World) {
    forall r | r in w.open && w.open[r].Moved? :: Located(w.bars, w.open[r].movement.serial).Some?
  }

  /** The step parts the log from the inventory: a new bar, or a bar's new place, that nobody will
      write down; a movement stored that does not start where the log has the bar; or the last
      pending movement of a bar that leaves the log short of where the bar is. */
  predicate Parts(w: World, step: Step) {
    Enabled(w, step)
    && match step
       case InsertBar(_, serial, _, _, acked) => !acked && !Known(w.bars, serial)
       case MoveBar(r, acked) =>
         var p := w.open[r];
         && !acked && VaultUpdated(w.bars, p.serial, p.to).Ok?
         && !Pending(w, p.serial) && Located(w.bars, p.serial) != Some(p.to)
       case LogMovement(r, stored) =>
         var m := w.open[r].movement;
         var was := Replayed(w.log, m.serial);
         || (stored && m.from != was)
         || (!PendingElsewhere(w, r, m.serial) && (if stored then Some(m.to) else was) != Located(w.bars, m.serial))
       case _ => false
  }

  // ----------------------------------------------------------------------- one statement

  lemma {:induction false} PositionStable(bars: seq<Bar>, i: nat, b: Bar, serial: Serial)
    requires i < |bars| && b.serial == bars[i].serial
    ensures Position(bars[i := b], serial) == Position(bars, serial)
  {
    var n := |bars| - 1;
    if i < n {
      PositionStable(bars[..n], i, b, serial);
      assert bars[i := b][..n] == bars[..n][i := b];
    } else {
      assert bars[i := b][..n] == bars[..n];
    }
  }

  lemma LocatedUpdated(bars: seq<Bar>, serial: Serial, to: VaultId)
    requires VaultUpdated(bars, serial, to).Ok?
    ensures forall other :: Located(VaultUpdated(bars, serial, to).value, other)
                            == if other == serial then Some(to) else Located(bars, other)
  {
    var i := Position(bars, serial).value;
    forall other ensures Position(bars[i := bars[i].(vault := to)], other) == Position(bars, other) {
      PositionStable(bars, i, bars[i].(vault := to), other);
    }
  }

  lemma LocatedIngested(bars: seq<Bar>, serial: Serial, vault: VaultId, weight: int)
    requires Ingested(bars, serial, vault, weight).Ok?
    ensures forall other :: Located(Ingested(bars, serial, vault, weight).value, other)
                            == if other == serial then Some(vault) else Located(bars, other)
  {
    assert (bars + [Bar(serial, vault, weight, Available)])[..|bars|] == bars;
  }

  lemma ReplayedAppend(log: seq<Movement>, m: Movement)
    ensures forall serial :: Replayed(log + [m], serial) == if serial == m.serial then Some(m.to) else Replayed(log, serial)
  {
    assert (log + [m])[..|log|] == log;
  }

  lemma ChainedAppend(log: seq<Movement>, m: Movement)
    requires Chained(log)
    ensures Chained(log + [m]) <==> m.from == Replayed(log, m.serial)
  {
    var longer := log + [m];
    assert longer[..|log|] == log && longer[|log|] == m;
    forall k | 0 <= k < |log| ensures longer[k].from == Replayed(longer[..k], longer[k].serial) {
      assert longer[..k] == log[..k];
    }
  }

  /** Requests that have moved a bar are the same, but for one that just did. */
  lemma PendingSame(w: World, next: World)
    requires forall r :: (r in w.open && w.open[r].Moved?) <==> (r in next.open && next.open[r].Moved?)
    requires forall r | r in w.open && w.open[r].Moved? :: next.open[r] == w.open[r]
    ensures forall serial :: Pending(next, serial) <==> Pending(w, serial)
  {
  }

  lemma PendingMore(w: World, next: World, r: nat)
    requires r in next.open && next.open[r].Moved? && (r in w.open ==> !w.open[r].Moved?)
    requires forall q | q != r :: q in next.open <==> q in w.open
    requires forall q | q in w.open && q != r :: next.open[q] == w.open[q]
    ensures forall serial :: Pending(next, serial) <==> Pending(w, serial) || serial == next.open[r].movement.serial
  {
    forall serial | Pending(w, serial) ensures Pending(next, serial) {
      var q :| q in w.open && w.open[q].Moved? && w.open[q].movement.serial == serial;
      assert q in next.open && next.open[q] == w.open[q];
    }
    assert Pending(next, next.open[r].movement.serial);
  }

  lemma PendingLess(w: World, next: World, r: nat)
    requires r in w.open && w.open[r].Moved? && next.open == w.open - {r}
    ensures forall serial :: Pending(next, serial) <==> PendingElsewhere(w, r, serial)
    ensures forall serial | serial != w.open[r].movement.serial :: Pending(w, serial) <==> PendingElsewhere(w, r, serial)
  {
    forall serial | PendingElsewhere(w, r, serial) ensures Pending(next, serial) {
      var q :| q in w.open && q != r && w.open[q].Moved? && w.open[q].movement.serial == serial;
      assert q in next.open && next.open[q] == w.open[q];
    }
  }

  lemma InsertExactly(w: World, step: Step)
    requires Agrees(w) && MovedKnown(w) && step.InsertBar? && Enabled(w, step) && !Known(w.bars, step.serial)
    ensures Agrees(Next(w, step)) <==> !Parts(w, step)
    ensures MovedKnown(Next(w, step))
  {
    var next := Next(w, step);
    LocatedIngested(w.bars, step.serial, step.vault, step.weight);
    assert Located(w.bars, step.serial) == None && !Pending(w, step.serial);
    hide Chained, Replayed, Located;
    if step.acked {
      PendingMore(w, next, step.r);
    } else {
      PendingSame(w, next);
    }
  }

  lemma MoveExactly(w: World, step: Step)
    requires Agrees(w) && MovedKnown(w) && step.MoveBar? && Enabled(w, step)
    ensures Agrees(Next(w, step)) <==> !Parts(w, step)
    ensures MovedKnown(Next(w, step))
  {
    var next, p := Next(w, step), w.open[step.r];
    hide Chained, Replayed, Located;
    if VaultUpdated(w.bars, p.serial, p.to).Ok? {
      LocatedUpdated(w.bars, p.serial, p.to);
      if step.acked {
        PendingMore(w, next, step.r);
      } else {
        PendingSame(w, next);
      }
    } else {
      PendingSame(w, next);
    }
  }

  lemma LogExactly(w: World, step: Step)
    requires Agrees(w) && MovedKnown(w) && step.LogMovement? && Enabled(w, step)
    ensures Agrees(Next(w, step)) <==> !Parts(w, step)
    ensures MovedKnown(Next(w, step))
  {
    var next, m := Next(w, step), w.open[step.r].movement;
    hide Chained, Replayed, Located;
    PendingLess(w, next, step.r);
    ReplayedAppend(w.log, m);
    ChainedAppend(w.log, m);
  }

  lemma OtherExactly(w: World, step: Step)
    requires Agrees(w) && MovedKnown(w) && Enabled(w, step)
    requires step.ReadBar? || step.GiveUp? || step.SetStatus? || (step.InsertBar? && Known(w.bars, step.serial))
    ensures Agrees(Next(w, step)) && MovedKnown(Next(w, step)) && !Parts(w, step)
  {
    var next := Next(w, step);
    if step.SetStatus? {
      forall serial ensures Located(next.bars, serial) == Located(w.bars, serial) {
        PositionStable(w.bars, step.bar, w.bars[step.bar].(status := step.status), serial);
      }
    }
    hide Chained, Replayed, Located;
    PendingSame(w, next);
  }

  /** The steps that part log and inventory, however requests overlap. */
  lemma StepAgreesExactly(w: World, step: Step)
    requires Agrees(w) && MovedKnown(w)
    ensures Agrees(Next(w, step)) <==> !Parts(w, step)
    ensures MovedKnown(Next(w, step))
  {
    hide Agrees, MovedKnown, Known;
    if !Enabled(w, step) {
      hide Parts;
      NothingDone(w, step);
    } else if step.MoveBar? {
      MoveExactly(w, step);
    } else if step.LogMovement? {
      LogExactly(w, step);
    } else if step.InsertBar? && !Known(w.bars, step.serial) {
      InsertExactly(w, step);
    } else {
      OtherExactly(w, step);
    }
  }

  lemma NothingDone(w: World, step: Step)
    requires !Enabled(w, step)
    ensures Next(w, step) == w && !Parts(w, step)
  {
  }

  // -------------------------------------------------------------------------- whole runs

  /** Log and inventory agree at every point of the run. */
  ghost predicate AgreesThroughout(w: World, steps: seq<Step>)
    decreases |steps|
  {
    Agrees(w) && (steps == [] || AgreesThroughout(Next(w, steps[0]), steps[1..]))
  }

  predicate NeverParts(w: World, steps: seq<Step>)
    decreases |steps|
  {
    steps == [] || (!Parts(w, steps[0]) && NeverParts(Next(w, steps[0]), steps[1..]))
  }

  lemma {:induction false} RunAgreesExactly(w: World, steps: seq<Step>)
    requires Agrees(w) && MovedKnown(w)
    ensures AgreesThroughout(w, steps) <==> NeverParts(w, steps)
    decreases |steps|
  {
    if steps != [] {
      hide Agrees, MovedKnown, Parts, Next;
      var next := Next(w, steps[0]);
      StepAgreesExactly(w, steps[0]);
      if Agrees(next) {
        RunAgreesExactly(next, steps[1..]);
      } else {
        assert !AgreesThroughout(next, steps[1..]);
      }
    }
  }

  /** However requests overlap: the log chains and replays to exactly the inventory, at every point
      of a run, exactly if no step parts them. */
  lemma LogReplaysInventory(steps: seq<Step>)
    ensures AgreesThroughout(START, steps) <==> NeverParts(START, steps)
  {
    assert Agrees(START) && MovedKnown(START);
    RunAgreesExactly(START, steps);
  }

  // ------------------------------------------------------------------ separate requests

  /** No other request is at work on the bar. */
  predicate Alone(w: World, serial: Serial) {
    forall r | r in w.open :: w.open[r].Bar() != serial
  }

  /** A request starts on a bar that no other request is at work on. */
  predicate Separate(w: World, step: Step) {
    match step
    case InsertBar(_, serial, _, _, _) => Alone(w, serial)
    case ReadBar(_, serial, _) => Alone(w, serial)
    case _ => true
  }

  predicate SeparateRun(w: World, steps: seq<Step>)
    decreases |steps|
  {
    steps == [] || (Separate(w, steps[0]) && SeparateRun(Next(w, steps[0]), steps[1..]))
  }

  /** The step leaves a change of place unwritten: it takes effect without an acknowledgement, so
      that no movement will follow, or its movement fails to be stored. */
  predicate LosesMovement(w: World, step: Step) {
    Enabled(w, step)
    && match step
       case InsertBar(_, serial, _, _, acked) => !acked && !Known(w.bars, serial)
       case MoveBar(r, acked) =>
         !acked && w.open[r].from != w.open[r].to && VaultUpdated(w.bars, w.open[r].serial, w.open[r].to).Ok?
       case LogMovement(r, stored) => !stored && w.open[r].movement.from != Some(w.open[r].movement.to)
       case _ => false
  }

  predicate NothingLost(w: World, steps: seq<Step>)
    decreases |steps|
  {
    steps == [] || (!LosesMovement(w, steps[0]) && NothingLost(Next(w, steps[0]), steps[1..]))
  }

  predicate PhaseOk(w: World, p: Phase) {
    match p
    case Looked(serial, from, _) => Located(w.bars, serial) == Some(from)
    case Moved(m) => Located(w.bars, m.serial) == Some(m.to) && Replayed(w.log, m.serial) == m.from
  }

  /** Requests are at work on different bars, and each is right about its bar. */
  ghost predicate Apart(w: World) {
    && (forall r, q | r in w.open && q in w.open && r != q :: w.open[r].Bar() != w.open[q].Bar())
    && (forall r | r in w.open :: PhaseOk(w, w.open[r]))
  }

  lemma ApartMeansKnown(w: World)
    requires Apart(w)
    ensures MovedKnown(w)
  {
    forall r | r in w.open && w.open[r].Moved? ensures Located(w.bars, w.open[r].movement.serial).Some? {
      assert PhaseOk(w, w.open[r]);
    }
  }

  /** Then to part log and inventory is to lose a movement. */
  lemma PartsIsLoss(w: World, step: Step)
    requires Agrees(w) && Apart(w) && Separate(w, step)
    ensures Parts(w, step) <==> LosesMovement(w, step)
  {
    hide Chained, Replayed, Located;
    if Enabled(w, step) && step.MoveBar? {
      assert PhaseOk(w, w.open[step.r]) && !Pending(w, w.open[step.r].serial);
    } else if Enabled(w, step) && step.LogMovement? {
      assert PhaseOk(w, w.open[step.r]) && !PendingElsewhere(w, step.r, w.open[step.r].movement.serial);
    }
  }

  /** Where the bar and its log are as before, so is what a request knows. */
  lemma PhaseStays(w: World, next: World, p: Phase)
    requires PhaseOk(w, p)
    requires Located(next.bars, p.Bar()) == Located(w.bars, p.Bar()) && Replayed(next.log, p.Bar()) == Replayed(w.log, p.Bar())
    ensures PhaseOk(next, p)
  {
  }

  lemma InsertApart(w: World, step: Step)
    requires Agrees(w) && Apart(w) && Separate(w, step) && step.InsertBar? && Enabled(w, step) && !Known(w.bars, step.serial)
    ensures Apart(Next(w, step))
  {
    var next := Next(w, step);
    LocatedIngested(w.bars, step.serial, step.vault, step.weight);
    assert Located(w.bars, step.serial) == None && !Pending(w, step.serial);
    hide Chained, Replayed, Located;
    forall r | r in next.open ensures PhaseOk(next, next.open[r]) {
      if r in w.open {
        PhaseStays(w, next, w.open[r]);
      }
    }
  }

  lemma MoveApart(w: World, step: Step)
    requires Agrees(w) && Apart(w) && step.MoveBar? && Enabled(w, step)
    ensures Apart(Next(w, step))
  {
    var next, p := Next(w, step), w.open[step.r];
    assert PhaseOk(w, p) && !Pending(w, p.serial);
    hide Chained, Replayed, Located;
    if VaultUpdated(w.bars, p.serial, p.to).Ok? {
      LocatedUpdated(w.bars, p.serial, p.to);
    }
    forall r | r in next.open ensures PhaseOk(next, next.open[r]) {
      if r != step.r {
        PhaseStays(w, next, w.open[r]);
      }
    }
  }

  lemma OtherApart(w: World, step: Step)
    requires Agrees(w) && Apart(w) && Separate(w, step) && Enabled(w, step)
    requires !step.InsertBar? && !step.MoveBar?
    ensures Apart(Next(w, step))
  {
    var next := Next(w, step);
    if step.SetStatus? {
      forall serial ensures Located(next.bars, serial) == Located(w.bars, serial) {
        PositionStable(w.bars, step.bar, w.bars[step.bar].(status := step.status), serial);
      }
    } else if step.LogMovement? {
      ReplayedAppend(w.log, w.open[step.r].movement);
    }
    forall r | r in next.open ensures PhaseOk(next, next.open[r]) {
      if r in w.open {
        PhaseStays(w, next, w.open[r]);
      }
    }
  }

  lemma StepApart(w: World, step: Step)
    requires Agrees(w) && Apart(w) && Separate(w, step)
    ensures Apart(Next(w, step))
  {
    hide Agrees, Apart, Separate, Known;
    if !Enabled(w, step) {
      NothingDone(w, step);
    } else if step.MoveBar? {
      MoveApart(w, step);
    } else if step.InsertBar? {
      if !Known(w.bars, step.serial) {
        InsertApart(w, step);
      }
    } else {
      OtherApart(w, step);
    }
  }

  lemma {:induction false} SeparateRunExactly(w: World, steps: seq<Step>)
    requires Agrees(w) && Apart(w) && SeparateRun(w, steps)
    ensures NeverParts(w, steps) <==> NothingLost(w, steps)
    decreases |steps|
  {
    if steps != [] {
      hide Agrees, Apart, Separate, Parts, LosesMovement, Next;
      ApartMeansKnown(w);
      PartsIsLoss(w, steps[0]);
      StepAgreesExactly(w, steps[0]);
      StepApart(w, steps[0]);
      if !Parts(w, steps[0]) {
        SeparateRunExactly(Next(w, steps[0]), steps[1..]);
      }
    }
  }

  /** If requests for one bar do not overlap, all that parts log and inventory is a movement lost. */
  lemma SeparateRequestsAgree(steps: seq<Step>)
    requires SeparateRun(START, steps)
    ensures AgreesThroughout(START, steps) <==> NothingLost(START, steps)
  {
    assert Agrees(START) && Apart(START);
    LogReplaysInventory(steps);
    SeparateRunExactly(START, steps);
  }

  // ------------------------------------------------------------------ without the care

  /** Both requests look before either moves, and the second to move is the first to log. */
  function Overlapped(w: World, serial: Serial, a: VaultId, b: VaultId): World {
    var looked := Next(Next(w, ReadBar(1, serial, a)), ReadBar(2, serial, b));
    var moved := Next(Next(looked, MoveBar(1, true)), MoveBar(2, true));
    Next(Next(moved, LogMovement(2, true)), LogMovement(1, true))
  }

  /** Two overlapping transfers of an available bar from vault v, to a and then to b, leave the
      bar in b and the log saying a, and the log chains exactly if b is where the bar was. */
  lemma OverlapBreaksTheLog(w: World, serial: Serial, v: VaultId, a: VaultId, b: VaultId)
    requires w.open == map[] && Chained(w.log) && Replayed(w.log, serial) == Some(v)
    requires Located(w.bars, serial) == Some(v) && w.bars[Position(w.bars, serial).value].status.Available?
    ensures var after := Overlapped(w, serial, a, b);
            && after.open == map[]
            && Located(after.bars, serial) == Some(b)
            && Replayed(after.log, serial) == Some(a)
            && (Chained(after.log) <==> b == v)
  {
    hide Chained, Replayed, Position;
    var looked1 := Next(w, ReadBar(1, serial, a));
    assert looked1.open == map[1 := Looked(serial, v, a)];
    var looked := Next(looked1, ReadBar(2, serial, b));
    assert looked.bars == w.bars && looked.log == w.log;
    var moved1 := MovedOn(looked, 1);
    var moved := MovedOn(moved1, 2);
    var m1, m2 := Movement(serial, Some(v), a), Movement(serial, Some(v), b);
    assert moved.open == map[1 := Moved(m1), 2 := Moved(m2)];
    var logged := Next(moved, LogMovement(2, true));
    var after := Next(logged, LogMovement(1, true));
    assert after == World(moved.bars, w.log + [m2] + [m1], map[]);
    TwoLogged(w.log, m1, m2);
  }

  lemma MovedOn(w: World, r: nat) returns (next: World)
    requires r in w.open && w.open[r].Looked?
    requires Located(w.bars, w.open[r].serial).Some? && w.bars[Position(w.bars, w.open[r].serial).value].status.Available?
    ensures var p := w.open[r];
            && next == Next(w, MoveBar(r, true))
            && next.log == w.log && next.open == w.open[r := Moved(Movement(p.serial, Some(p.from), p.to))]
            && Located(next.bars, p.serial) == Some(p.to)
            && next.bars[Position(next.bars, p.serial).value].status.Available?
  {
    var p := w.open[r];
    var i := Position(w.bars, p.serial).value;
    next := Next(w, MoveBar(r, true));
    PositionStable(w.bars, i, w.bars[i].(vault := p.to), p.serial);
  }

  lemma TwoLogged(log: seq<Movement>, m1: Movement, m2: Movement)
    requires Chained(log) && m1.serial == m2.serial && m1.from == m2.from == Replayed(log, m1.serial)
    ensures Replayed(log + [m2] + [m1], m1.serial) == Some(m1.to)
    ensures Chained(log + [m2] + [m1]) <==> Some(m2.to) == m1.from
  {
    ChainedAppend(log, m2);
    ReplayedAppend(log, m2);
    var once := log + [m2];
    if Some(m2.to) == m1.from {
      ChainedAppend(once, m1);
    } else {
      assert (once + [m1])[..|once|] == once;
      assert (once + [m1])[|once|] == m1;
    }
  }

  /** A movement that fails to be stored, which the handler ignores, leaves the log behind: it
      still chains, and replays to the inventory exactly if the bar did not change vaults. */
  lemma UnstoredMovement(w: World, serial: Serial, v: VaultId, to: VaultId)
    requires w.open == map[] && Replayed(w.log, serial) == Some(v)
    requires Located(w.bars, serial) == Some(v) && w.bars[Position(w.bars, serial).value].status.Available?
    ensures var after := Transferred(w, 0, serial, to, true, false);
            && Located(after.bars, serial) == Some(to)
            && after.log == w.log
            && (Replayed(after.log, serial) == Located(after.bars, serial) <==> to == v)
  {
    LocatedUpdated(w.bars, serial, to);
  }
}
