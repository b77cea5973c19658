/** Two whole runs of order creation that go wrong: an order that is never confirmed, and a
    successful answer that names no order. */
module IntakeRuns {
  import opened Wrappers
  import opened OrderIntake

  const LOST := Fate(false, false)

  const NO_UPDATE := GOOD.(update := LOST)

  const NO_FALLBACK := GOOD.(fallback := LOST)

  const ORDER := Arrive(1, "key", Buy, true)

  const FRESH := Request(1, "key", Buy, true, Looking)

  const ROW := Row(1, "key", Buy, false)

  /** The states a run goes through, move by move. */
  predicate Leads(states: seq<Intake>, moves: seq<Move>, k: nat)
    requires |states| == |moves| + 1 && k < |moves|
  {
    CanMove(states[k], moves[k]) && Step(states[k], moves[k]) == states[k + 1]
  }

  lemma {:induction false} StatesFollow(states: seq<Intake>, moves: seq<Move>)
    requires |states| == |moves| + 1 && forall k | 0 <= k < |moves| :: Leads(states, moves, k)
    ensures ValidMoves(states[0], moves) && IntakeAfter(states[0], moves) == states[|moves|]
    decreases |moves|
  {
    if moves != [] {
      assert Leads(states, moves, 0);
      forall k | 0 <= k < |moves| - 1 ensures Leads(states[1..], moves[1..], k) {
        assert Leads(states, moves, k + 1);
      }
      hide Step, CanMove;
      StatesFollow(states[1..], moves[1..]);
    }
  }

  lemma FirstOrder()
    ensures Find([], 1, "key") == None && Find([ROW], 1, "key") == Some(0)
  {
  }

  // ------------------------------------------------------------------- never confirmed

  /** The order's only confirmation fails, and the client's retry finds the row. */
  const STRANDING: seq<Move> :=
    [ORDER, Call(0, GOOD), Call(0, GOOD), Call(0, NO_UPDATE), ORDER, Call(1, GOOD)]

  const ANSWERED := FRESH.(phase := Done(Named(201, Some(0))))

  const STRANDED: Intake := Intake([ROW], [ANSWERED, FRESH.(phase := Done(Named(200, Some(0))))], [])

  const STRANDING_STATES: seq<Intake> :=
    [OPEN, Intake([], [FRESH], []), Intake([], [FRESH.(phase := Inserting)], []),
     Intake([ROW], [FRESH.(phase := Confirming(0))], []), Intake([ROW], [ANSWERED], []),
     Intake([ROW], [ANSWERED, FRESH], []), STRANDED]

  lemma StrandingStarts()
    ensures forall k | 0 <= k < 3 :: Leads(STRANDING_STATES, STRANDING, k)
  {
    FirstOrder();
    hide Find;
  }

  lemma StrandingEnds()
    ensures forall k | 3 <= k < 6 :: Leads(STRANDING_STATES, STRANDING, k)
  {
    FirstOrder();
    hide Find;
  }

  lemma StrandingRun()
    ensures ValidMoves(OPEN, STRANDING) && IntakeAfter(OPEN, STRANDING) == STRANDED
  {
    hide Leads;
    StrandingStarts();
    StrandingEnds();
    StatesFollow(STRANDING_STATES, STRANDING);
  }

  /** Both answers name the order, and whatever follows, further retries included, it is never
      confirmed and never dispatched. */
  lemma OrderStrandedForever(more: seq<Move>)
    requires ValidMoves(STRANDED, more)
    ensures ValidMoves(OPEN, STRANDING) && IntakeAfter(OPEN, STRANDING) == STRANDED
    ensures Answered(STRANDED, 0, 0) && Answered(STRANDED, 1, 0)
    ensures var end := IntakeAfter(STRANDED, more);
            |end.rows| > 0 && end.rows[0] == ROW && !Sent(end, 0)
  {
    StrandingRun();
    MovesSound(OPEN, STRANDING);
    NobodysOrderStays(STRANDED, more, 0);
  }

  // ------------------------------------------------------------------- no order named

  /** Two requests race, the second loses the insert, and its fallback lookup fails. */
  const RACE: seq<Move> :=
    [ORDER, ORDER, Call(0, GOOD), Call(1, GOOD), Call(0, GOOD), Call(1, GOOD), Call(1, NO_FALLBACK)]

  const INSERTING := FRESH.(phase := Inserting)

  const WINNER := FRESH.(phase := Confirming(0))

  const RACE_STATES: seq<Intake> :=
    [OPEN, Intake([], [FRESH], []), Intake([], [FRESH, FRESH], []), Intake([], [INSERTING, FRESH], []),
     Intake([], [INSERTING, INSERTING], []), Intake([ROW], [WINNER, INSERTING], []),
     Intake([ROW], [WINNER, FRESH.(phase := FallingBack)], []),
     Intake([ROW], [WINNER, FRESH.(phase := Done(Named(200, None)))], [])]

  lemma RaceStarts()
    ensures forall k | 0 <= k < 4 :: Leads(RACE_STATES, RACE, k)
  {
    FirstOrder();
    hide Find;
  }

  lemma RaceEnds()
    ensures forall k | 4 <= k < 7 :: Leads(RACE_STATES, RACE, k)
  {
    FirstOrder();
    hide Find;
  }

  lemma SuccessWithoutOrder()
    ensures ValidMoves(OPEN, RACE)
    ensures IntakeAfter(OPEN, RACE) == Intake([ROW], [WINNER, FRESH.(phase := Done(Named(200, None)))], [])
  {
    hide Leads;
    RaceStarts();
    RaceEnds();
    StatesFollow(RACE_STATES, RACE);
  }
}
