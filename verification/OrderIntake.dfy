/** Creating orders under retries: any number of requests in flight, each lookup, insert, update
    and publish a separate step, any of which can fail before or after taking effect. */
module OrderIntake {
  import opened Wrappers

  datatype OrderKind = Buy | Sell

  /** An order row. Its ID is its position. */
  datatype Row = Row(user: nat, key: string, kind: OrderKind, confirmed: bool)

  /** Response codes; a named order of None is the zero value of a failed lookup. */
  datatype Response = Named(code: int, order: Option<nat>) | Refused(code: int)

  datatype Phase =
    | Looking
    | Inserting
    | FallingBack
    | Confirming(order: nat)
    | Dispatching(order: nat)
    | Done(response: Response)

  datatype Request = Request(user: nat, key: string, kind: OrderKind, valid: bool, phase: Phase)

  /** A ready-to-mint or burn-requested message. */
  datatype Dispatch = Dispatch(order: nat, kind: OrderKind)

  datatype Intake = Intake(rows: seq<Row>, requests: seq<Request>, sent: seq<Dispatch>)

  const OPEN: Intake := Intake([], [], [])

  datatype Calls = Calls(lookup: Fate, insert: Fate, fallback: Fate, update: Fate, publish: Fate)
  {
    predicate Honest() {
      lookup.Honest() && insert.Honest() && fallback.Honest() && update.Honest() && publish.Honest()
    }
  }

  predicate IsRow(rows: seq<Row>, user: nat, key: string, id: nat) {
    id < |rows| && rows[id].user == user && rows[id].key == key
  }

  /** SELECT ... WHERE user_id AND idempotency_key, scanning the rows in order. */
  function Find(rows: seq<Row>, user: nat, key: string): (r: Option<nat>)
    ensures r.Some? ==> IsRow(rows, user, key, r.value)
    ensures r.None? ==> forall id: nat :: !IsRow(rows, user, key, id)
  {
    if rows == [] then None
    else
      var last := |rows| - 1;
      match Find(rows[..last], user, key)
      case Some(id) => Some(id)
      case None =>
        assert forall id: nat :: IsRow(rows, user, key, id) ==> id == last || IsRow(rows[..last], user, key, id);
        if rows[last].user == user && rows[last].key == key then Some(last) else None
  }

  function Arrived(s: Intake, user: nat, key: string, kind: OrderKind, valid: bool): Intake {
    s.(requests := s.requests +
         [Request(user, key, kind, valid, if key == "" then Done(Refused(400)) else Looking)])
  }

  function InPhase(s: Intake, i: nat, p: Phase): Intake
    requires i < |s.requests|
  {
    s.(requests := s.requests[i := s.requests[i].(phase := p)])
  }

  /** The next call of request i. */
  function Act(s: Intake, i: nat, c: Calls): Intake
    requires i < |s.requests|
  {
    var q := s.requests[i];
    match q.phase
    case Looking =>
      if !c.lookup.reported then InPhase(s, i, Done(Refused(500)))
      else
        (match Find(s.rows, q.user, q.key)
         case Some(id) => InPhase(s, i, Done(Named(200, Some(id))))
         case None => InPhase(s, i, if q.valid then Inserting else Done(Refused(400))))
    case Inserting =>
      if Find(s.rows, q.user, q.key).Some? then
        // The unique key answers, unless the connection fails first.
        InPhase(s, i, if c.insert.reported then FallingBack else Done(Refused(500)))
      else
        var inserted := if c.insert.landed then s.(rows := s.rows + [Row(q.user, q.key, q.kind, false)]) else s;
        InPhase(inserted, i, if c.insert.reported then Confirming(|s.rows|) else Done(Refused(500)))
    case FallingBack =>
      // The error of this lookup is ignored.
      InPhase(s, i, Done(Named(200, if c.fallback.reported then Find(s.rows, q.user, q.key) else None)))
    case Confirming(id) =>
      var updated :=
        if c.update.landed && id < |s.rows| then s.(rows := s.rows[id := s.rows[id].(confirmed := true)]) else s;
      InPhase(updated, i, if c.update.reported then Dispatching(id) else Done(Named(201, Some(id))))
    case Dispatching(id) =>
      var published := if c.publish.landed then s.(sent := s.sent + [Dispatch(id, q.kind)]) else s;
      InPhase(published, i, Done(Named(201, Some(id))))
    case Done(_) => s
  }

  datatype Move = Arrive(user: nat, key: string, kind: OrderKind, valid: bool) | Call(request: nat, calls: Calls)

  predicate CanMove(s: Intake, m: Move) {
    m.Call? ==> m.request < |s.requests| && m.calls.Honest()
  }

  function Step(s: Intake, m: Move): Intake
    requires CanMove(s, m)
  {
    match m
    case Arrive(user, key, kind, valid) => Arrived(s, user, key, kind, valid)
    case Call(i, c) => Act(s, i, c)
  }

  ghost predicate ValidMoves(s: Intake, moves: seq<Move>)
    decreases |moves|
  {
    moves == [] || (CanMove(s, moves[0]) && ValidMoves(Step(s, moves[0]), moves[1..]))
  }

  ghost function IntakeAfter(s: Intake, moves: seq<Move>): Intake
    requires ValidMoves(s, moves)
    decreases |moves|
  {
    if moves == [] then s else IntakeAfter(Step(s, moves[0]), moves[1..])
  }

  // -------------------------------------------------------------------------- invariants

  predicate UniqueKeys(rows: seq<Row>) {
    forall a, b | 0 <= a < b < |rows| :: rows[a].user != rows[b].user || rows[a].key != rows[b].key
  }

  /** The order a request is still responsible for. */
  predicate InCharge(q: Request, id: nat) {
    (q.phase.Confirming? || q.phase.Dispatching?) && q.phase.order == id
  }

  predicate RequestOk(s: Intake, i: nat)
    requires i < |s.requests|
  {
    var q := s.requests[i];
    match q.phase
    case Confirming(id) => IsRow(s.rows, q.user, q.key, id) && s.rows[id].kind == q.kind && !s.rows[id].confirmed
    case Dispatching(id) => IsRow(s.rows, q.user, q.key, id) && s.rows[id].kind == q.kind && s.rows[id].confirmed
    case FallingBack => Find(s.rows, q.user, q.key).Some?
    case Done(Named(_, Some(id))) => IsRow(s.rows, q.user, q.key, id)
    case _ => true
  }

  /** At most one request is in charge of an order. */
  ghost predicate OneInCharge(s: Intake) {
    forall i, j, id: nat | 0 <= i < j < |s.requests| && InCharge(s.requests[i], id) :: !InCharge(s.requests[j], id)
  }

  /** What was dispatched is confirmed, dispatched once and nobody's charge any more. */
  predicate SentOk(s: Intake) {
    && (forall k | 0 <= k < |s.sent| ::
          && s.sent[k].order < |s.rows| && s.rows[s.sent[k].order].kind == s.sent[k].kind
          && s.rows[s.sent[k].order].confirmed)
    && (forall k, i | 0 <= k < |s.sent| && 0 <= i < |s.requests| :: !InCharge(s.requests[i], s.sent[k].order))
    && (forall j, k | 0 <= j < k < |s.sent| :: s.sent[j].order != s.sent[k].order)
  }

  ghost predicate Sound(s: Intake) {
    && UniqueKeys(s.rows)
    && (forall i | 0 <= i < |s.requests| :: RequestOk(s, i))
    && OneInCharge(s)
    && SentOk(s)
  }

  lemma SameKeySameRow(rows: seq<Row>, user: nat, key: string, a: nat, b: nat)
    requires UniqueKeys(rows) && IsRow(rows, user, key, a) && IsRow(rows, user, key, b)
    ensures a == b
  {
  }

  /** Rows are never dropped or renamed. */
  lemma RowsStay(s: Intake, i: nat, c: Calls, user: nat, key: string, id: nat)
    requires i < |s.requests| && IsRow(s.rows, user, key, id)
    ensures IsRow(Act(s, i, c).rows, user, key, id) && Act(s, i, c).rows[id].kind == s.rows[id].kind
    ensures s.rows[id].confirmed ==> Act(s, i, c).rows[id].confirmed
    ensures !InCharge(s.requests[i], id) ==> Act(s, i, c).rows[id] == s.rows[id]
  {
  }

  lemma OtherRequestsOk(s: Intake, i: nat, c: Calls, j: nat)
    requires Sound(s) && i < |s.requests| && j < |s.requests| && i != j
    ensures RequestOk(Act(s, i, c), j)
  {
    var q := s.requests[j];
    assert RequestOk(s, j);
    assert Act(s, i, c).requests[j] == q;
    match q.phase
    case Confirming(id) =>
      RowsStay(s, i, c, q.user, q.key, id);
      assert InCharge(q, id);
    case Dispatching(id) => RowsStay(s, i, c, q.user, q.key, id);
    case FallingBack => RowsStay(s, i, c, q.user, q.key, Find(s.rows, q.user, q.key).value);
    case Done(Named(_, Some(id))) => RowsStay(s, i, c, q.user, q.key, id);
    case _ =>
  }

  lemma ActingRequestOk(s: Intake, i: nat, c: Calls)
    requires Sound(s) && i < |s.requests| && c.Honest()
    ensures RequestOk(Act(s, i, c), i)
  {
    assert RequestOk(s, i);
  }

  lemma UniqueKeysStay(s: Intake, i: nat, c: Calls)
    requires Sound(s) && i < |s.requests|
    ensures UniqueKeys(Act(s, i, c).rows)
  {
    var q := s.requests[i];
    if q.phase.Inserting? && Find(s.rows, q.user, q.key).None? {
      forall id: nat | id < |s.rows| ensures s.rows[id].user != q.user || s.rows[id].key != q.key {
        assert !IsRow(s.rows, q.user, q.key, id);
      }
    }
  }

  /** A request takes charge only of the row it just inserted. */
  lemma Charges(s: Intake, i: nat, c: Calls)
    requires Sound(s) && i < |s.requests|
    ensures forall id: nat :: InCharge(Act(s, i, c).requests[i], id) ==> InCharge(s.requests[i], id) || id == |s.rows|
    ensures forall j | 0 <= j < |s.requests| && j != i :: Act(s, i, c).requests[j] == s.requests[j]
    ensures forall j, id: nat | 0 <= j < |s.requests| && InCharge(s.requests[j], id) :: id < |s.rows|
  {
    forall j, id: nat | 0 <= j < |s.requests| && InCharge(s.requests[j], id) ensures id < |s.rows| {
      assert RequestOk(s, j);
    }
  }

  lemma OneInChargeStays(s: Intake, i: nat, c: Calls)
    requires Sound(s) && i < |s.requests|
    ensures OneInCharge(Act(s, i, c))
  {
    Charges(s, i, c);
  }

  /** What was sent stays as it was; a new message is of the row its sender was in charge of. */
  lemma SentRows(s: Intake, i: nat, c: Calls)
    requires Sound(s) && i < |s.requests| && c.Honest()
    ensures var next := Act(s, i, c);
            && (forall k | 0 <= k < |s.sent| ::
                  s.sent[k].order < |next.rows| && next.rows[s.sent[k].order] == s.rows[s.sent[k].order])
            && (next.sent == s.sent
                || (s.requests[i].phase.Dispatching?
                    && next.sent == s.sent + [Dispatch(s.requests[i].phase.order, s.requests[i].kind)]
                    && next.rows == s.rows))
  {
  }

  lemma SentOkStays(s: Intake, i: nat, c: Calls)
    requires Sound(s) && i < |s.requests| && c.Honest()
    ensures SentOk(Act(s, i, c))
  {
    assert RequestOk(s, i);
    Charges(s, i, c);
    SentRows(s, i, c);
    var q := s.requests[i];
    if q.phase.Dispatching? {
      assert InCharge(q, q.phase.order);
    }
  }

  lemma ActSound(s: Intake, i: nat, c: Calls)
    requires Sound(s) && i < |s.requests| && c.Honest()
    ensures Sound(Act(s, i, c))
  {
    UniqueKeysStay(s, i, c);
    OneInChargeStays(s, i, c);
    SentOkStays(s, i, c);
    forall j | 0 <= j < |s.requests| ensures RequestOk(Act(s, i, c), j) {
      if j == i {
        ActingRequestOk(s, i, c);
      } else {
        OtherRequestsOk(s, i, c, j);
      }
    }
  }

  lemma {:induction false} MovesSound(s: Intake, moves: seq<Move>)
    requires Sound(s) && ValidMoves(s, moves)
    ensures Sound(IntakeAfter(s, moves))
    decreases |moves|
  {
    if moves != [] {
      match moves[0] {
        case Arrive(user, key, kind, valid) => ArriveSound(s, user, key, kind, valid);
        case Call(i, c) => ActSound(s, i, c);
      }
      MovesSound(Step(s, moves[0]), moves[1..]);
    }
  }

  lemma ArriveSound(s: Intake, user: nat, key: string, kind: OrderKind, valid: bool)
    requires Sound(s)
    ensures Sound(Arrived(s, user, key, kind, valid))
  {
    var next := Arrived(s, user, key, kind, valid);
    forall j | 0 <= j < |next.requests| ensures RequestOk(next, j) {
      if j < |s.requests| {
        assert RequestOk(s, j);
      }
    }
  }

  // ------------------------------------------------------------------------- main results

  /** Request i was answered successfully with this order. */
  predicate Answered(s: Intake, i: nat, id: nat) {
    i < |s.requests| && s.requests[i].phase.Done?
    && s.requests[i].phase.response.Named? && s.requests[i].phase.response.order == Some(id)
  }

  /** However requests overlap: at most one row per user and key, every response that names an
      order names that row, and at most one message is dispatched for it, of the row's kind and
      only after the row was confirmed. */
  lemma RetriesAreIdempotent(moves: seq<Move>)
    requires ValidMoves(OPEN, moves)
    ensures var s := IntakeAfter(OPEN, moves);
            && UniqueKeys(s.rows)
            && (forall i: nat, j: nat, a: nat, b: nat | Answered(s, i, a) && Answered(s, j, b)
                                    && s.requests[i].user == s.requests[j].user && s.requests[i].key == s.requests[j].key ::
                  a == b < |s.rows| && s.rows[a].user == s.requests[i].user && s.rows[a].key == s.requests[i].key)
            && (forall k | 0 <= k < |s.sent| ::
                  s.sent[k].order < |s.rows| && s.rows[s.sent[k].order].confirmed
                  && s.rows[s.sent[k].order].kind == s.sent[k].kind)
            && (forall j, k | 0 <= j < k < |s.sent| ::
                  s.sent[j].order != s.sent[k].order)
  {
    MovesSound(OPEN, moves);
    var s := IntakeAfter(OPEN, moves);
    forall i: nat, a: nat | Answered(s, i, a) ensures IsRow(s.rows, s.requests[i].user, s.requests[i].key, a) {
      assert RequestOk(s, i);
    }
    forall i: nat, j: nat, a: nat, b: nat | Answered(s, i, a) && Answered(s, j, b)
                        && s.requests[i].user == s.requests[j].user && s.requests[i].key == s.requests[j].key
      ensures a == b
    {
      SameKeySameRow(s.rows, s.requests[i].user, s.requests[i].key, a, b);
    }
  }

  /** The exception: a success that names no order comes from a failed fallback lookup and from
      nothing else. */
  lemma UnnamedSuccessExactly(s: Intake, i: nat, c: Calls)
    requires Sound(s) && i < |s.requests| && !s.requests[i].phase.Done? && c.Honest()
    ensures Act(s, i, c).requests[i].phase == Done(Named(200, None))
            <==> s.requests[i].phase.FallingBack? && !c.fallback.reported
  {
    assert RequestOk(s, i);
  }

  // ------------------------------------------------------------------ stranded orders

  /** Some request is still to confirm or dispatch the order. */
  predicate Charged(s: Intake, id: nat) {
    exists i | 0 <= i < |s.requests| :: InCharge(s.requests[i], id)
  }

  predicate Sent(s: Intake, id: nat) {
    exists k | 0 <= k < |s.sent| :: s.sent[k].order == id
  }

  lemma NobodysOrderStep(s: Intake, m: Move, id: nat)
    requires Sound(s) && CanMove(s, m) && id < |s.rows| && !Charged(s, id)
    ensures var next := Step(s, m);
            && id < |next.rows| && next.rows[id] == s.rows[id]
            && !Charged(next, id) && (Sent(next, id) <==> Sent(s, id))
  {
    if m.Call? {
      var i, c := m.request, m.calls;
      var next := Act(s, i, c);
      assert !InCharge(s.requests[i], id);
      RowsStay(s, i, c, s.rows[id].user, s.rows[id].key, id);
      Charges(s, i, c);
      SentRows(s, i, c);
      assert forall k | 0 <= k < |s.sent| :: next.sent[k] == s.sent[k];
    }
  }

  /** An order in nobody's charge stays as it is through every further run: retries find the row
      and answer with it, and nothing confirms or dispatches it any more. */
  lemma {:induction false} NobodysOrderStays(s: Intake, moves: seq<Move>, id: nat)
    requires Sound(s) && ValidMoves(s, moves) && id < |s.rows| && !Charged(s, id)
    ensures var end := IntakeAfter(s, moves);
            && id < |end.rows| && end.rows[id] == s.rows[id]
            && !Charged(end, id) && (Sent(end, id) <==> Sent(s, id))
    decreases |moves|
  {
    if moves != [] {
      NobodysOrderStep(s, moves[0], id);
      MovesSound(s, [moves[0]]);
      assert IntakeAfter(s, [moves[0]]) == Step(s, moves[0]) by {
        assert [moves[0]][1..] == [];
      }
      hide Step, Sound, Charged, Sent;
      NobodysOrderStays(Step(s, moves[0]), moves[1..], id);
    }
  }

  const FINE := Fate(true, true)

  const GOOD := Calls(FINE, FINE, FINE, FINE, FINE)

  /** The request in charge of an order finishes its work when its calls succeed. */
  lemma ChargeIsMet(s: Intake, i: nat, id: nat) returns (moves: seq<Move>)
    requires Sound(s) && i < |s.requests| && InCharge(s.requests[i], id)
    ensures ValidMoves(s, moves)
    ensures id < |IntakeAfter(s, moves).rows| && IntakeAfter(s, moves).rows[id].confirmed && Sent(IntakeAfter(s, moves), id)
  {
    assert RequestOk(s, i);
    var call := Call(i, GOOD);
    var once := Step(s, call);
    assert ValidMoves(once, []) && IntakeAfter(once, []) == once;
    if s.requests[i].phase.Dispatching? {
      moves := [call];
      assert moves[1..] == [] && once.sent[|s.sent|].order == id;
    } else {
      moves := [call, call];
      var twice := Step(once, call);
      assert once.requests[i].phase == Dispatching(id);
      assert twice.sent[|s.sent|].order == id;
      assert moves[1..] == [call] && [call][1..] == [];
      assert ValidMoves(twice, []) && IntakeAfter(twice, []) == twice;
      assert ValidMoves(once, [call]) && IntakeAfter(once, [call]) == twice;
    }
  }

  ghost predicate SentBy(s: Intake, moves: seq<Move>, id: nat) {
    ValidMoves(s, moves) && Sent(IntakeAfter(s, moves), id)
  }

  ghost predicate ConfirmedBy(s: Intake, moves: seq<Move>, id: nat) {
    ValidMoves(s, moves) && id < |IntakeAfter(s, moves).rows| && IntakeAfter(s, moves).rows[id].confirmed
  }

  /** So what can still become of an order is exact: some further run dispatches it exactly if it
      was dispatched already or some request is in charge of it, and confirms it likewise. */
  lemma DispatchableExactly(s: Intake, id: nat)
    requires Sound(s) && id < |s.rows|
    ensures (exists moves :: SentBy(s, moves, id)) <==> Sent(s, id) || Charged(s, id)
    ensures (exists moves :: ConfirmedBy(s, moves, id)) <==> s.rows[id].confirmed || Charged(s, id)
  {
    if Charged(s, id) {
      var i :| 0 <= i < |s.requests| && InCharge(s.requests[i], id);
      var moves := ChargeIsMet(s, i, id);
      assert SentBy(s, moves, id) && ConfirmedBy(s, moves, id);
    } else {
      assert Sent(s, id) ==> SentBy(s, [], id);
      assert s.rows[id].confirmed ==> ConfirmedBy(s, [], id);
      forall moves | ValidMoves(s, moves)
        ensures SentBy(s, moves, id) <==> Sent(s, id)
        ensures ConfirmedBy(s, moves, id) <==> s.rows[id].confirmed
      {
        NobodysOrderStays(s, moves, id);
      }
    }
  }

  // ------------------------------------------------------------------- the running handler

  function CallsLeft(p: Phase): nat {
    match p
    case Looking => 4
    case Inserting => 3
    case FallingBack => 1
    case Confirming(_) => 2
    case Dispatching(_) => 1
    case Done(_) => 0
  }

  /** A request that runs to its end undisturbed. */
  function Alone(s: Intake, i: nat, c: Calls): (r: Intake)
    requires i < |s.requests|
    ensures |r.requests| == |s.requests|
    decreases CallsLeft(s.requests[i].phase)
  {
    if s.requests[i].phase.Done? then s else Alone(Act(s, i, c), i, c)
  }

  /** An undisturbed request dispatches its order exactly if the order is new and valid and the
      insert, the update and the publish all go through. */
  lemma AloneDispatchesExactly(s: Intake, i: nat, c: Calls)
    requires i < |s.requests| && s.requests[i].phase.Looking? && c.Honest()
    ensures var q := s.requests[i];
            Alone(s, i, c).sent == s.sent +
              if c.lookup.reported && Find(s.rows, q.user, q.key).None? && q.valid
                 && c.insert.reported && c.update.reported && c.publish.landed
              then [Dispatch(|s.rows|, q.kind)] else []
  {
    var s1 := Act(s, i, c);
    assert Alone(s, i, c) == Alone(s1, i, c);
    if !s1.requests[i].phase.Done? {
      var s2 := Act(s1, i, c);
      assert Alone(s1, i, c) == Alone(s2, i, c);
      if !s2.requests[i].phase.Done? {
        var s3 := Act(s2, i, c);
        assert Alone(s2, i, c) == Alone(s3, i, c);
        if !s3.requests[i].phase.Done? {
          assert Alone(s3, i, c) == Alone(Act(s3, i, c), i, c) == Act(s3, i, c);
        }
      }
    }
  }

  class OrderService {
    var rows: seq<Row>
    var sent: seq<Dispatch>

    /** Update the order and dispatch it to the mint or burn saga. */
    method ConfirmOrder(id: nat, c: Calls) returns (ok: bool)
      requires id < |rows|
      modifies this
      ensures rows == if c.update.landed then old(rows)[id := old(rows)[id].(confirmed := true)] else old(rows)
      ensures sent == if c.update.reported && c.publish.landed then old(sent) + [Dispatch(id, old(rows)[id].kind)] else old(sent)
      ensures ok == (c.update.reported && c.publish.reported)
    {
      if c.update.landed {
        rows := rows[id := rows[id].(confirmed := true)];
      }
      if !c.update.reported {
        return false;
      }
      if c.publish.landed {
        sent := sent + [Dispatch(id, rows[id].kind)];
      }
      ok := c.publish.reported;
    }

    /** The insert statement under the unique key. */
    method Create(row: Row, f: Fate) returns (r: Result<nat, bool>)
      modifies this`rows
      ensures var taken := Find(old(rows), row.user, row.key).Some?;
              && rows == (if !taken && f.landed then old(rows) + [row] else old(rows))
              && r == if !f.reported then Err(false) else if taken then Err(true) else Ok(|old(rows)|)
    {
      var taken := Find(rows, row.user, row.key).Some?;
      r := if !f.reported then Err(false) else if taken then Err(true) else Ok(|rows|);
      if !taken && f.landed {
        rows := rows + [row];
      }
    }

    /** `others` are the rows that other requests insert between this one's lookup and insert. */
    method CreateOrder(user: nat, key: string, kind: OrderKind, valid: bool, others: seq<Row>, c: Calls)
      returns (response: Response)
      requires c.Honest()
      modifies this
      ensures var looked := Act(Arrived(Intake(old(rows), [], old(sent)), user, key, kind, valid), 0, c);
              var s := Alone(looked.(rows := looked.rows + others), 0, c);
              rows == s.rows && sent == s.sent && s.requests[0].phase == Done(response)
    {
      ghost var looked := Act(Arrived(Intake(rows, [], sent), user, key, kind, valid), 0, c);
      ghost var s := looked.(rows := looked.rows + others);
      var existing := Find(rows, user, key);
      rows := rows + others;
      if key == "" {
        return Refused(400);
      }
      if !c.lookup.reported {
        return Refused(500);
      }
      if existing.Some? {
        return Named(200, existing);
      }
      if !valid {
        return Refused(400);
      }
      ghost var inserted := Act(s, 0, c);
      var created := Create(Row(user, key, kind, false), c.insert);
      assert Alone(s, 0, c) == Alone(inserted, 0, c);
      if created.Err? {
        if created.error {
          assert Alone(inserted, 0, c) == Act(inserted, 0, c);
          return Named(200, if c.fallback.reported then Find(rows, user, key) else None);
        }
        return Refused(500);
      }
      ghost var confirming := Act(inserted, 0, c);
      assert Alone(inserted, 0, c) == Alone(confirming, 0, c);
      var ok := ConfirmOrder(created.value, c);
      assert confirming.requests[0].phase.Dispatching? ==> Alone(confirming, 0, c) == Act(confirming, 0, c);
      return Named(201, Some(created.value));
    }
  }
}
