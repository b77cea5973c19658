/** The broadcast hub: subscribers with bounded channels, a lossy broadcast queue, and a
    shutdown that races with all of them.

    What happens under the write lock is one step. The send loop holds only the read lock, so
    its sends interleave with receives and broadcasts but with no change to the clients. */
module PriceHub {

  type Message = string

  const CLIENT_BUFFER: nat := 16
  const BROADCAST_BUFFER: nat := 64

  /** A client channel. `positions`, `since` and `until` keep its history: which messages of the
      hub's log it was given, and the stretch of the log it was subscribed for. */
  datatype Chan = Chan(
    buffer: seq<Message>,
    closed: bool,
    received: seq<Message>,
    positions: seq<nat>,
    since: nat,
    until: nat)

  /** Where the run loop is. */
  datatype Phase = Selecting | Holding(msg: Message) | Sending(todo: set<nat>) | Stopped

  /** `chans` are all channels ever handed out, `log` the messages sent out so far. A send on a
      closed channel and a second close panic. */
  datatype Hub = Hub(
    chans: seq<Chan>,
    clients: set<nat>,
    closed: bool,
    broadcast: seq<Message>,
    log: seq<Message>,
    phase: Phase,
    panicked: bool)

  const NEW_HUB: Hub := Hub([], {}, false, [], [], Selecting, false)

  datatype Step =
    | Subscribe
    | Unsubscribe(ch: nat)
    | Broadcast(msg: Message)
    | Take
    | StartSend
    | Send(ch: nat)
    | EndSend
    | Shutdown
    | Receive(ch: nat)

  predicate CanStep(h: Hub, s: Step) {
    match s
    case Subscribe => !h.phase.Sending?
    case Unsubscribe(ch) => !h.phase.Sending? && ch < |h.chans|
    case Broadcast(_) => true
    case Take => h.phase.Selecting? && h.broadcast != []
    case StartSend => h.phase.Holding?
    case Send(ch) => h.phase.Sending? && ch in h.phase.todo && ch < |h.chans| && h.log != []
    case EndSend => h.phase.Sending? && h.phase.todo == {}
    case Shutdown => h.phase.Selecting?
    case Receive(ch) => ch < |h.chans| && h.chans[ch].buffer != []
  }

  function Opened(h: Hub): Chan {
    Chan([], h.closed, [], [], |h.log|, |h.log|)
  }

  function Close(c: Chan, now: nat): Chan {
    c.(closed := true, until := now)
  }

  /** The send of a select with a default branch: it never waits. */
  function Offered(c: Chan, msg: Message, position: nat): Chan {
    if |c.buffer| < CLIENT_BUFFER then c.(buffer := c.buffer + [msg], positions := c.positions + [position]) else c
  }

  function CloseAll(chans: seq<Chan>, clients: set<nat>, now: nat): seq<Chan> {
    seq(|chans|, i requires 0 <= i < |chans| => if i in clients then Close(chans[i], now) else chans[i])
  }

  predicate AnyClosed(chans: seq<Chan>, clients: set<nat>) {
    exists i | 0 <= i < |chans| :: i in clients && chans[i].closed
  }

  function Do(h: Hub, s: Step): Hub
    requires CanStep(h, s)
  {
    match s
    case Subscribe =>
      h.(chans := h.chans + [Opened(h)], clients := if h.closed then h.clients else h.clients + {|h.chans|})
    case Unsubscribe(ch) =>
      if ch !in h.clients then h
      else h.(clients := h.clients - {ch}, chans := h.chans[ch := Close(h.chans[ch], |h.log|)],
              panicked := h.panicked || h.chans[ch].closed)
    case Broadcast(msg) => if |h.broadcast| < BROADCAST_BUFFER then h.(broadcast := h.broadcast + [msg]) else h
    case Take => h.(phase := Holding(h.broadcast[0]), broadcast := h.broadcast[1..])
    case StartSend => h.(phase := Sending(h.clients), log := h.log + [h.phase.msg])
    case Send(ch) =>
      h.(phase := Sending(h.phase.todo - {ch}),
         chans := h.chans[ch := Offered(h.chans[ch], h.log[|h.log| - 1], |h.log| - 1)],
         panicked := h.panicked || h.chans[ch].closed)
    case EndSend => h.(phase := Selecting)
    case Shutdown =>
      h.(closed := true, clients := {}, chans := CloseAll(h.chans, h.clients, |h.log|), phase := Stopped,
         panicked := h.panicked || AnyClosed(h.chans, h.clients))
    case Receive(ch) =>
      var c := h.chans[ch];
      h.(chans := h.chans[ch := c.(buffer := c.buffer[1..], received := c.received + [c.buffer[0]])])
  }

  ghost predicate ValidSteps(h: Hub, steps: seq<Step>)
    decreases |steps|
  {
    steps == [] || (CanStep(h, steps[0]) && ValidSteps(Do(h, steps[0]), steps[1..]))
  }

  ghost function HubAfter(h: Hub, steps: seq<Step>): Hub
    requires ValidSteps(h, steps)
    decreases |steps|
  {
    if steps == [] then h else HubAfter(Do(h, steps[0]), steps[1..])
  }

  // -------------------------------------------------------------------------- invariants

  /** The end of the stretch of the log that a channel may have seen. */
  function Reach(h: Hub, i: nat): int
    requires i < |h.chans|
  {
    if h.chans[i].closed then h.chans[i].until
    else if h.phase.Sending? && i in h.phase.todo then |h.log| - 1
    else |h.log|
  }

  /** What a channel delivered and still buffers is a subsequence of the messages sent out while
      it was subscribed, in their order. */
  predicate InOrder(h: Hub, i: nat)
    requires i < |h.chans|
  {
    var c := h.chans[i];
    var given := c.received + c.buffer;
    && |c.buffer| <= CLIENT_BUFFER
    && |c.positions| == |given|
    && c.since <= Reach(h, i) <= |h.log|
    && (forall k | 0 <= k < |given| :: c.since <= c.positions[k] < Reach(h, i) && given[k] == h.log[c.positions[k]])
    && (forall j, k | 0 <= j < k < |given| :: c.positions[j] < c.positions[k])
  }

  predicate Sound(h: Hub) {
    && !h.panicked
    && |h.broadcast| <= BROADCAST_BUFFER
    && (h.closed <==> h.phase.Stopped?)
    && (h.closed ==> h.clients == {})
    && (h.phase.Sending? ==> h.log != [] && h.phase.todo <= h.clients)
    && (forall i | i in h.clients :: i < |h.chans|)
    && (forall i | 0 <= i < |h.chans| :: h.chans[i].closed <==> i !in h.clients)
    && (forall i | 0 <= i < |h.chans| :: InOrder(h, i))
  }

  lemma SendInOrder(h: Hub, ch: nat)
    requires Sound(h) && CanStep(h, Send(ch))
    ensures InOrder(Do(h, Send(ch)), ch)
  {
    var c, d := h.chans[ch], Do(h, Send(ch)).chans[ch];
    assert InOrder(h, ch);
    if |c.buffer| < CLIENT_BUFFER {
      assert d.received + d.buffer == (c.received + c.buffer) + [h.log[|h.log| - 1]];
    }
  }

  lemma ReceiveInOrder(h: Hub, ch: nat)
    requires Sound(h) && CanStep(h, Receive(ch))
    ensures InOrder(Do(h, Receive(ch)), ch)
  {
    var c, d := h.chans[ch], Do(h, Receive(ch)).chans[ch];
    assert InOrder(h, ch);
    assert d.received + d.buffer == c.received + c.buffer;
  }

  lemma UntouchedInOrder(h: Hub, s: Step, i: nat)
    requires Sound(h) && CanStep(h, s) && i < |h.chans|
    requires (s.Send? || s.Receive?) ==> s.ch != i
    ensures InOrder(Do(h, s), i)
  {
    assert InOrder(h, i);
    var c, d := h.chans[i], Do(h, s).chans[i];
    assert d.received == c.received && d.buffer == c.buffer && d.positions == c.positions && d.since == c.since;
    assert Reach(h, i) <= Reach(Do(h, s), i) <= |Do(h, s).log|;
  }

  lemma StepInOrder(h: Hub, s: Step, i: nat)
    requires Sound(h) && CanStep(h, s) && i < |Do(h, s).chans|
    ensures InOrder(Do(h, s), i)
  {
    if i == |h.chans| {
      assert s.Subscribe?;
    } else if s.Send? && s.ch == i {
      SendInOrder(h, i);
    } else if s.Receive? && s.ch == i {
      ReceiveInOrder(h, i);
    } else {
      UntouchedInOrder(h, s, i);
    }
  }

  lemma StepSound(h: Hub, s: Step)
    requires Sound(h) && CanStep(h, s)
    ensures Sound(Do(h, s))
  {
    var next := Do(h, s);
    forall i | 0 <= i < |next.chans| ensures InOrder(next, i) {
      StepInOrder(h, s, i);
    }
  }

  lemma {:induction false} StepsSound(h: Hub, steps: seq<Step>)
    requires Sound(h) && ValidSteps(h, steps)
    ensures Sound(HubAfter(h, steps))
    decreases |steps|
  {
    if steps != [] {
      StepSound(h, steps[0]);
      StepsSound(Do(h, steps[0]), steps[1..]);
    }
  }

  /** Under any interleaving: nothing is sent on a closed channel, no channel is closed twice,
      buffers stay within bounds, each client gets an in-order subsequence of what was sent out
      while it was subscribed, and once the hub has shut down every channel ever handed out is
      closed, the ones handed out afterwards included. */
  lemma HubIsSafe(steps: seq<Step>)
    requires ValidSteps(NEW_HUB, steps)
    ensures var h := HubAfter(NEW_HUB, steps);
            && !h.panicked
            && |h.broadcast| <= 64
            && (forall i | 0 <= i < |h.chans| :: InOrder(h, i) && |h.chans[i].buffer| <= 16)
            && (h.phase.Stopped? ==> forall i | 0 <= i < |h.chans| :: h.chans[i].closed)
  {
    StepsSound(NEW_HUB, steps);
  }

  // --------------------------------------------------------------------- what a client misses

  /** How many messages of its stretch of the log a channel was not given. */
  function Missed(h: Hub, i: nat): int {
    if i < |h.chans| then Reach(h, i) - h.chans[i].since - |h.chans[i].positions| else 0
  }

  /** The message is offered to a client whose buffer is full. */
  predicate Drops(h: Hub, s: Step, i: nat)
    requires CanStep(h, s)
  {
    s.Send? && s.ch == i && |h.chans[i].buffer| == CLIENT_BUFFER
  }

  lemma KeepingUpMissesNothing(h: Hub, s: Step, i: nat)
    requires Sound(h) && CanStep(h, s)
    ensures Missed(Do(h, s), i) == Missed(h, i) + if Drops(h, s, i) then 1 else 0
  {
    if i < |h.chans| {
      assert InOrder(h, i);
    }
  }

  ghost function Dropped(h: Hub, steps: seq<Step>, i: nat): nat
    requires ValidSteps(h, steps)
    decreases |steps|
  {
    if steps == [] then 0 else (if Drops(h, steps[0], i) then 1 else 0) + Dropped(Do(h, steps[0]), steps[1..], i)
  }

  lemma {:induction false} MissedIsDropped(h: Hub, steps: seq<Step>, i: nat)
    requires Sound(h) && ValidSteps(h, steps)
    ensures Missed(HubAfter(h, steps), i) == Missed(h, i) + Dropped(h, steps, i)
    decreases |steps|
  {
    if steps != [] {
      hide Sound, Missed, Drops, Do, CanStep;
      KeepingUpMissesNothing(h, steps[0], i);
      StepSound(h, steps[0]);
      MissedIsDropped(Do(h, steps[0]), steps[1..], i);
    }
  }

  lemma GivenEverything(h: Hub, i: nat)
    requires Sound(h) && i < |h.chans|
    ensures 0 <= h.chans[i].since <= Reach(h, i) <= |h.log|
    ensures Missed(h, i) == 0 <==> h.chans[i].received + h.chans[i].buffer == h.log[h.chans[i].since..Reach(h, i)]
  {
    var c := h.chans[i];
    assert InOrder(h, i);
    var given, due := c.received + c.buffer, h.log[c.since..Reach(h, i)];
    if Missed(h, i) == 0 {
      CompleteMeansEverything(c.positions, c.since, Reach(h, i));
      assert |given| == |due|;
      forall k | 0 <= k < |given| ensures given[k] == due[k] {
        assert given[k] == h.log[c.positions[k]] && c.positions[k] == c.since + k;
      }
      assert given == due;
    } else {
      assert |given| != |due|;
    }
  }

  /** Over any run a client misses exactly as many messages as were offered to it while its buffer
      was full, and it has been given its stretch of the log, whole and in order, exactly if
      that never happened. */
  lemma EverythingUnlessFull(steps: seq<Step>, i: nat)
    requires ValidSteps(NEW_HUB, steps) && i < |HubAfter(NEW_HUB, steps).chans|
    ensures var h, dropped := HubAfter(NEW_HUB, steps), Dropped(NEW_HUB, steps, i);
            var c := h.chans[i];
            && 0 <= c.since <= Reach(h, i) <= |h.log|
            && |c.received + c.buffer| + dropped == Reach(h, i) - c.since
            && (c.received + c.buffer == h.log[c.since..Reach(h, i)] <==> dropped == 0)
  {
    var h := HubAfter(NEW_HUB, steps);
    StepsSound(NEW_HUB, steps);
    MissedIsDropped(NEW_HUB, steps, i);
    GivenEverything(h, i);
    assert InOrder(h, i);
  }

  lemma {:induction false} CompleteMeansEverything(positions: seq<nat>, since: nat, reach: nat)
    requires |positions| == reach - since
    requires forall k | 0 <= k < |positions| :: since <= positions[k] < reach
    requires forall j, k | 0 <= j < k < |positions| :: positions[j] < positions[k]
    ensures forall k | 0 <= k < |positions| :: positions[k] == since + k
  {
    if positions != [] {
      var last := |positions| - 1;
      Ascending(positions, since);
      forall k | 0 <= k < last ensures positions[k] < reach - 1 {
        assert positions[k] < positions[last];
      }
      CompleteMeansEverything(positions[..last], since, reach - 1);
    }
  }

  lemma {:induction false} Ascending(positions: seq<nat>, since: nat)
    requires forall k | 0 <= k < |positions| :: since <= positions[k]
    requires forall j, k | 0 <= j < k < |positions| :: positions[j] < positions[k]
    ensures positions != [] ==> positions[|positions| - 1] >= since + |positions| - 1
  {
    if |positions| > 1 {
      Ascending(positions[..|positions| - 1], since);
    }
  }

  // ---------------------------------------------------------------------- the running hub

  class RunningHub {
    var chans: seq<Chan>
    var clients: set<nat>
    var closed: bool
    var broadcast: seq<Message>
    var log: seq<Message>

    ghost function View(phase: Phase): Hub
      reads this
    {
      Hub(chans, clients, closed, broadcast, log, phase, false)
    }

    method Subscribe(ghost phase: Phase) returns (ch: nat)
      requires !phase.Sending?
      modifies this
      ensures View(phase) == Do(old(View(phase)), Step.Subscribe) && ch == |old(chans)|
    {
      ch := |chans|;
      chans := chans + [Chan([], false, [], [], |log|, |log|)];
      if closed {
        chans := chans[ch := Close(chans[ch], |log|)];
        return;
      }
      clients := clients + {ch};
    }

    method RemoveClient(ghost phase: Phase, ch: nat)
      requires Sound(View(phase)) && CanStep(View(phase), Unsubscribe(ch))
      modifies this
      ensures View(phase) == Do(old(View(phase)), Unsubscribe(ch))
    {
      if ch in clients {
        clients := clients - {ch};
        assert !chans[ch].closed;
        chans := chans[ch := Close(chans[ch], |log|)];
      }
    }

    method Broadcast(ghost phase: Phase, msg: Message)
      modifies this
      ensures View(phase) == Do(old(View(phase)), Step.Broadcast(msg))
    {
      if |broadcast| < BROADCAST_BUFFER {
        broadcast := broadcast + [msg];
      }
    }

    /** The send loop, with the clients visited in any order. */
    method SendToAll(msg: Message)
      requires Sound(View(Holding(msg)))
      modifies this
      ensures log == old(log) + [msg] && clients == old(clients) && closed == old(closed) && broadcast == old(broadcast)
      ensures |chans| == |old(chans)|
      ensures forall i | 0 <= i < |chans| ::
                chans[i] == if i in clients then Offered(old(chans[i]), msg, |old(log)|) else old(chans[i])
      ensures Sound(View(Selecting))
    {
      StepSound(View(Holding(msg)), StartSend);
      log := log + [msg];
      var todo := clients;
      while todo != {}
        invariant todo <= clients && log == old(log) + [msg] && |chans| == |old(chans)|
        invariant forall i | 0 <= i < |chans| ::
                    chans[i] == if i in clients && i !in todo then Offered(old(chans[i]), msg, |old(log)|) else old(chans[i])
        invariant Sound(View(Sending(todo)))
        invariant clients == old(clients) && closed == old(closed) && broadcast == old(broadcast)
        decreases todo
      {
        var ch :| ch in todo;
        StepSound(View(Sending(todo)), Send(ch));
        assert !chans[ch].closed;
        chans := chans[ch := Offered(chans[ch], msg, |log| - 1)];
        todo := todo - {ch};
      }
      StepSound(View(Sending(todo)), EndSend);
    }

    method Shutdown()
      requires Sound(View(Selecting))
      modifies this
      ensures View(Stopped) == Do(old(View(Selecting)), Step.Shutdown)
      ensures Sound(View(Stopped)) && forall i | 0 <= i < |chans| :: chans[i].closed
    {
      StepSound(View(Selecting), Step.Shutdown);
      closed := true;
      var all := clients;
      while clients != {}
        invariant clients <= all && |chans| == |old(chans)|
        invariant forall i | 0 <= i < |chans| ::
                    chans[i] == if i in all && i !in clients then Close(old(chans[i]), |log|) else old(chans[i])
        invariant closed && broadcast == old(broadcast) && log == old(log)
        decreases clients
      {
        var ch :| ch in clients;
        clients := clients - {ch};
        assert !chans[ch].closed;
        chans := chans[ch := Close(chans[ch], |log|)];
      }
    }
  }
}
