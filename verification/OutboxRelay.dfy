/** The relay that drains the outbox to the stream, one publish and one mark at a time.

    Rows are numbered in creation order. The stream is what remains after the broker drops
    messages whose Msg-Id, the row number, it has already taken. */
module OutboxRelay {
  import opened Wrappers

  const BATCH: nat := 100

  datatype Phase = Publishing | Marking

  /** `rows` counts the outbox rows, `batch` are the fetched rows still to do. */
  datatype Relay = Relay(rows: nat, marked: set<nat>, stream: seq<nat>, batch: seq<nat>, phase: Phase)

  const IDLE: Relay := Relay(0, {}, [], [], Publishing)

  datatype Act =
    | Append
    | Fetch
    | Publish(fate: Fate)
    | Mark(fate: Fate)
    | Crash

  /** The first unmarked rows from `from` on, oldest first, at most `limit` of them. */
  function Unpublished(rows: nat, marked: set<nat>, from: nat, limit: nat): seq<nat>
    requires from <= rows
    decreases rows - from
  {
    if from == rows || limit == 0 then []
    else if from in marked then Unpublished(rows, marked, from + 1, limit)
    else [from] + Unpublished(rows, marked, from + 1, limit - 1)
  }

  /** Ascending unmarked rows from `from` on, leaving out none but later ones, and those only when
      the limit is reached. */
  predicate OldestUnmarked(rows: nat, marked: set<nat>, from: nat, limit: nat, batch: seq<nat>) {
    && |batch| <= limit
    && (forall k | 0 <= k < |batch| :: from <= batch[k] < rows && batch[k] !in marked)
    && (forall j, k | 0 <= j < k < |batch| :: batch[j] < batch[k])
    && (forall id: nat | from <= id < rows && id !in marked && id !in batch ::
          |batch| == limit && forall k | 0 <= k < |batch| :: batch[k] < id)
  }

  lemma OldestFirst(rows: nat, marked: set<nat>, from: nat, limit: nat, rest: seq<nat>)
    requires from < rows && from !in marked && limit > 0 && OldestUnmarked(rows, marked, from + 1, limit - 1, rest)
    ensures OldestUnmarked(rows, marked, from, limit, [from] + rest)
  {
    var batch := [from] + rest;
    assert forall k | 0 < k < |batch| :: batch[k] == rest[k - 1];
    forall id: nat | from <= id < rows && id !in marked && id !in batch
      ensures |batch| == limit && forall k | 0 <= k < |batch| :: batch[k] < id
    {
      assert batch[0] == from != id;
      forall j | 0 <= j < |rest| ensures rest[j] != id {
        assert batch[j + 1] == rest[j];
      }
    }
  }

  lemma {:induction false} UnpublishedAreOldest(rows: nat, marked: set<nat>, from: nat, limit: nat)
    requires from <= rows
    ensures OldestUnmarked(rows, marked, from, limit, Unpublished(rows, marked, from, limit))
    decreases rows - from
  {
    if from < rows && limit > 0 {
      if from in marked {
        UnpublishedAreOldest(rows, marked, from + 1, limit);
      } else {
        hide OldestUnmarked;
        UnpublishedAreOldest(rows, marked, from + 1, limit - 1);
        OldestFirst(rows, marked, from, limit, Unpublished(rows, marked, from + 1, limit - 1));
      }
    }
  }

  /** Publishing under a Msg-Id the stream already holds adds nothing. */
  function Deduplicated(stream: seq<nat>, id: nat): seq<nat> {
    if id in stream then stream else stream + [id]
  }

  predicate CanAct(r: Relay, a: Act) {
    match a
    case Append => true
    case Crash => true
    case Fetch => r.batch == [] && r.phase.Publishing?
    case Publish(f) => r.batch != [] && r.phase.Publishing? && f.Honest()
    case Mark(f) => r.batch != [] && r.phase.Marking? && f.Honest()
  }

  function Do(r: Relay, a: Act): Relay
    requires CanAct(r, a)
  {
    match a
    case Append => r.(rows := r.rows + 1)
    case Crash => r.(batch := [], phase := Publishing)
    case Fetch => r.(batch := Unpublished(r.rows, r.marked, 0, BATCH))
    case Publish(f) =>
      var sent := if f.landed then r.(stream := Deduplicated(r.stream, r.batch[0])) else r;
      if f.reported then sent.(phase := Marking) else sent.(batch := [])
    case Mark(f) =>
      var acked := if f.landed then r.(marked := r.marked + {r.batch[0]}) else r;
      if f.reported then acked.(batch := r.batch[1..], phase := Publishing)
      else acked.(batch := [], phase := Publishing)
  }

  // --------------------------------------------------------------------------- invariant

  function UpTo(n: nat): seq<nat> {
    seq(n, i => i)
  }

  function Below(n: nat): (s: set<nat>)
    ensures forall x: nat :: x in s <==> x < n
  {
    if n == 0 then {} else Below(n - 1) + {n - 1}
  }

  /** The stream is the first rows in order, the marked rows are those below p, all of the
      streamed ones but perhaps the last, and the batch continues from p. */
  predicate InOrderFrom(r: Relay, p: nat) {
    var m := |r.stream|;
    && p <= m <= p + 1 && m <= r.rows
    && r.stream == UpTo(m)
    && r.marked == Below(p)
    && (forall k | 0 <= k < |r.batch| :: r.batch[k] == p + k)
    && p + |r.batch| <= r.rows
    && (r.phase.Marking? ==> r.batch != [] && m == p + 1)
  }

  ghost predicate InOrder(r: Relay) {
    exists p: nat :: InOrderFrom(r, p)
  }

  lemma {:induction false} UnpublishedFrom(rows: nat, marked: set<nat>, p: nat, from: nat, limit: nat)
    requires p <= rows && from <= rows && marked == Below(p)
    ensures var u := Unpublished(rows, marked, from, limit);
            var first := if from < p then p else from;
            && |u| == (if rows - first < limit then rows - first else limit)
            && forall k | 0 <= k < |u| :: u[k] == first + k
    decreases rows - from
  {
    if from < rows && limit > 0 {
      if from in marked {
        UnpublishedFrom(rows, marked, p, from + 1, limit);
      } else {
        UnpublishedFrom(rows, marked, p, from + 1, limit - 1);
      }
    }
  }

  lemma ActKeepsOrderFrom(r: Relay, p: nat, a: Act)
    requires InOrderFrom(r, p) && CanAct(r, a)
    ensures InOrderFrom(Do(r, a), if a.Mark? && a.fate.landed then p + 1 else p)
    ensures r.stream <= Do(r, a).stream
  {
    var m := |r.stream|;
    assert UpTo(m + 1) == UpTo(m) + [m];
    assert p in UpTo(m) <==> p < m by {
      assert p < m ==> UpTo(m)[p] == p;
    }
    if a.Fetch? {
      UnpublishedFrom(r.rows, r.marked, p, 0, BATCH);
    }
  }

  lemma ActKeepsOrder(r: Relay, a: Act)
    requires InOrder(r) && CanAct(r, a)
    ensures InOrder(Do(r, a)) && r.stream <= Do(r, a).stream
  {
    var p: nat :| InOrderFrom(r, p);
    ActKeepsOrderFrom(r, p, a);
  }

  ghost predicate ValidActs(r: Relay, acts: seq<Act>)
    decreases |acts|
  {
    acts == [] || (CanAct(r, acts[0]) && ValidActs(Do(r, acts[0]), acts[1..]))
  }

  ghost function Drained(r: Relay, acts: seq<Act>): Relay
    requires ValidActs(r, acts)
    decreases |acts|
  {
    if acts == [] then r else Drained(Do(r, acts[0]), acts[1..])
  }

  lemma {:induction false} ActsKeepOrder(r: Relay, acts: seq<Act>)
    requires InOrder(r) && ValidActs(r, acts)
    ensures InOrder(Drained(r, acts)) && r.stream <= Drained(r, acts).stream
    decreases |acts|
  {
    if acts != [] {
      ActKeepsOrder(r, acts[0]);
      ActsKeepOrder(Do(r, acts[0]), acts[1..]);
    }
  }

  /** Whatever calls fail, before or after taking effect, and whenever the relay crashes or rows
      are added: the stream is the outbox up to some row, every marked row is on it, and at
      most the last streamed row is unmarked. */
  lemma StreamIsOutboxPrefix(acts: seq<Act>)
    requires ValidActs(IDLE, acts)
    ensures var r := Drained(IDLE, acts);
            && |r.stream| <= r.rows
            && (forall k | 0 <= k < |r.stream| :: r.stream[k] == k)
            && (forall id | id in r.marked :: id in r.stream)
            && (forall id | id in r.stream && id !in r.marked :: id == |r.stream| - 1)
  {
    assert InOrderFrom(IDLE, 0);
    ActsKeepOrder(IDLE, acts);
    var r := Drained(IDLE, acts);
    var p: nat :| InOrderFrom(r, p);
    assert forall k | 0 <= k < |r.stream| :: UpTo(|r.stream|)[k] == k;
    forall id | id in r.marked ensures id in r.stream {
      assert r.stream[id] == id;
    }
  }

  /** Nothing is stuck: after any failure an undisturbed fetch, publish and mark sends out and
      marks the oldest unmarked row. */
  lemma OldestRowGoesOut(r: Relay, p: nat)
    requires InOrderFrom(r, p) && p < r.rows
    ensures p !in r.marked
    ensures var fetched := Do(Do(r, Crash), Fetch);
            && CanAct(fetched, Publish(Fate(true, true)))
            && (var sent := Do(fetched, Publish(Fate(true, true)));
                && CanAct(sent, Mark(Fate(true, true)))
                && p in sent.stream
                && Do(sent, Mark(Fate(true, true))).marked == r.marked + {p})
  {
    var crashed := Do(r, Crash);
    UnpublishedFrom(crashed.rows, crashed.marked, p, 0, BATCH);
  }

  // ---------------------------------------------------------------------- the drain loop

  /** `calls` are the fates of the publish and mark calls in order; the process dies when they
      run out. */
  predicate HonestCalls(calls: seq<(Fate, Fate)>) {
    forall k | 0 <= k < |calls| :: calls[k].0.Honest() && calls[k].1.Honest()
  }

  ghost function DrainBatch(r: Relay, calls: seq<(Fate, Fate)>): Relay
    requires r.phase.Publishing? && HonestCalls(calls)
    decreases |calls|
  {
    if r.batch == [] then r
    else if calls == [] then Do(r, Crash)
    else
      var sent := Do(r, Publish(calls[0].0));
      if !calls[0].0.reported then sent
      else
        var acked := Do(sent, Mark(calls[0].1));
        if !calls[0].1.reported then acked else DrainBatch(acked, calls[1..])
  }

  /** A drain is made of relay acts, so it keeps the order too. */
  lemma {:induction false} DrainKeepsOrder(r: Relay, calls: seq<(Fate, Fate)>)
    requires InOrder(r) && r.phase.Publishing? && HonestCalls(calls)
    ensures InOrder(DrainBatch(r, calls)) && r.stream <= DrainBatch(r, calls).stream
    decreases |calls|
  {
    if r.batch == [] {
    } else if calls == [] {
      ActKeepsOrder(r, Crash);
    } else {
      ActKeepsOrder(r, Publish(calls[0].0));
      var sent := Do(r, Publish(calls[0].0));
      if calls[0].0.reported {
        ActKeepsOrder(sent, Mark(calls[0].1));
        var acked := Do(sent, Mark(calls[0].1));
        if calls[0].1.reported {
          DrainKeepsOrder(acked, calls[1..]);
        }
      }
    }
  }

  class OutboxRelay {
    var rows: nat
    var marked: set<nat>
    var stream: seq<nat>

    ghost function View(): Relay
      reads this
    {
      Relay(rows, marked, stream, [], Publishing)
    }

    /** The oldest unmarked rows in order: all of them, or as many as the limit allows. */
    method FetchUnpublished(limit: nat) returns (batch: seq<nat>)
      ensures OldestUnmarked(rows, marked, 0, limit, batch)
      ensures batch == Unpublished(rows, marked, 0, limit)
    {
      hide OldestUnmarked;
      batch := [];
      UnpublishedAreOldest(rows, marked, 0, limit);
      for id := 0 to rows
        invariant |batch| <= limit
        invariant batch + Unpublished(rows, marked, id, limit - |batch|) == Unpublished(rows, marked, 0, limit)
      {
        if |batch| == limit {
          assert batch + [] == batch;
          return;
        }
        if id !in marked {
          ghost var later := Unpublished(rows, marked, id + 1, limit - |batch| - 1);
          assert batch + ([id] + later) == batch + [id] + later;
          batch := batch + [id];
        }
      }
      assert batch + [] == batch;
    }

    method PublishRaw(id: nat, f: Fate) returns (ok: bool)
      modifies this`stream
      ensures ok == f.reported
      ensures stream == if f.landed then Deduplicated(old(stream), id) else old(stream)
    {
      if f.landed && id !in stream {
        stream := stream + [id];
      }
      ok := f.reported;
    }

    method MarkPublished(id: nat, f: Fate) returns (ok: bool)
      modifies this`marked
      ensures ok == f.reported
      ensures marked == if f.landed then old(marked) + {id} else old(marked)
    {
      if f.landed {
        marked := marked + {id};
      }
      ok := f.reported;
    }

    method Drain(calls: seq<(Fate, Fate)>)
      requires HonestCalls(calls)
      modifies this
      ensures View() == DrainBatch(Do(old(View()), Fetch), calls)
    {
      hide OldestUnmarked, Unpublished;
      var batch := FetchUnpublished(BATCH);
      ghost var fetched := Do(View(), Fetch);
      for k := 0 to |batch|
        invariant rows == old(rows) && k <= |calls|
        invariant DrainBatch(Relay(rows, marked, stream, batch[k..], Publishing), calls[k..]) == DrainBatch(fetched, calls)
      {
        if k == |calls| {
          return;
        }
        var ok := PublishRaw(batch[k], calls[k].0);
        if !ok {
          return;
        }
        ok := MarkPublished(batch[k], calls[k].1);
        if !ok {
          return;
        }
        assert batch[k..][1..] == batch[k + 1..] && calls[k..][1..] == calls[k + 1..];
      }
    }
  }
}
