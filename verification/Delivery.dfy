/** How a durable subscription answers the broker, and what that makes of a message. */
module Delivery {
  import opened Wrappers

  const MAX_DELIVER: nat := 5

  /** An error as a chain of wrapped causes. */
  datatype Error =
    | Plain(text: string)
    | Wrapped(text: string, cause: Error)
    | PermanentError(cause: Error)

  function Permanent(err: Option<Error>): Option<Error> {
    if err.None? then None else Some(PermanentError(err.value))
  }

  predicate IsPermanent(err: Error) {
    match err
    case Plain(_) => false
    case PermanentError(_) => true
    case Wrapped(_, cause) => IsPermanent(cause)
  }

  datatype Answer = Ack | Nak | Term

  /** `delivered` is the attempt's number, or 0 when the message metadata cannot be read. */
  function Respond(err: Option<Error>, delivered: nat): Answer {
    if err.None? then Ack
    else if IsPermanent(err.value) || delivered >= MAX_DELIVER then Term
    else Nak
  }

  /** What the handler returned, whether the metadata could be read, and whether the answer
      reached the broker: errors of acknowledging are ignored. */
  datatype Attempt = Attempt(err: Option<Error>, metadata: bool, answered: bool)

  datatype Status = Waiting(attempts: nat) | Acked | Terminated | Dropped

  /** One more delivery. A message that is not answered is delivered again, and the broker itself
      stops after MAX_DELIVER deliveries. */
  function Deliver(s: Status, a: Attempt): Status {
    if !s.Waiting? then s
    else
      var n := s.attempts + 1;
      var again := if n >= MAX_DELIVER then Dropped else Waiting(n);
      if !a.answered then again
      else
        match Respond(a.err, if a.metadata then n else 0)
        case Ack => Acked
        case Term => Terminated
        case Nak => again
  }

  function Outcome(s: Status, attempts: seq<Attempt>): Status
    decreases |attempts|
  {
    if attempts == [] then s else Outcome(Deliver(s, attempts[0]), attempts[1..])
  }

  /** How often the handler succeeded on the message. */
  function Successes(s: Status, attempts: seq<Attempt>): nat
    decreases |attempts|
  {
    if attempts == [] then 0
    else (if s.Waiting? && attempts[0].err.None? then 1 else 0) + Successes(Deliver(s, attempts[0]), attempts[1..])
  }

  /** The broker hears of nothing that settles the message. */
  predicate Unsettled(a: Attempt) {
    !a.answered || (a.err.Some? && !IsPermanent(a.err.value))
  }

  /** The first j attempts led to another delivery. */
  predicate RetriedBefore(attempts: seq<Attempt>, j: nat)
    requires j <= |attempts|
  {
    forall k | 0 <= k < j :: Unsettled(attempts[k])
  }

  /** The attempt that decides: the first that settles the message, or the last allowed. */
  predicate Decides(attempts: seq<Attempt>, from: nat, j: nat)
    requires from < MAX_DELIVER
  {
    j < |attempts| && from + j < MAX_DELIVER
    && RetriedBefore(attempts, j)
    && (!Unsettled(attempts[j]) || from + j == MAX_DELIVER - 1)
  }

  /** Whichever errors the handler returns and whichever answers are lost, the message is settled
      by the deciding attempt: acknowledged, terminated with a record, or dropped without one,
      the last only if the fifth answer was lost or its metadata was unreadable. */
  lemma {:induction false} DecidingAttempt(attempts: seq<Attempt>, from: nat, j: nat)
    requires from < MAX_DELIVER && Decides(attempts, from, j)
    ensures Outcome(Waiting(from), attempts) ==
            if !attempts[j].answered then Dropped
            else if attempts[j].err.None? then Acked
            else if IsPermanent(attempts[j].err.value) || attempts[j].metadata then Terminated
            else Dropped
    ensures Successes(Waiting(from), attempts) == SuccessesUpTo(attempts, j + 1)
  {
    SuccessesFromFront(attempts, j + 1);
    if j == 0 {
      SettledStays(Deliver(Waiting(from), attempts[0]), attempts[1..]);
      assert attempts[1..][..0] == [];
    } else {
      assert Unsettled(attempts[0]);
      assert forall k | 0 <= k < j - 1 :: attempts[1..][k] == attempts[k + 1];
      DecidingAttempt(attempts[1..], from + 1, j - 1);
    }
  }

  /** Successes among the first n attempts, whoever heard of them. */
  function SuccessesUpTo(attempts: seq<Attempt>, n: nat): nat
    requires n <= |attempts|
  {
    if n == 0 then 0 else SuccessesUpTo(attempts, n - 1) + if attempts[n - 1].err.None? then 1 else 0
  }

  lemma {:induction false} SuccessesFromFront(attempts: seq<Attempt>, n: nat)
    requires 0 < n <= |attempts|
    ensures SuccessesUpTo(attempts, n) == (if attempts[0].err.None? then 1 else 0) + SuccessesUpTo(attempts[1..], n - 1)
  {
    if n > 1 {
      SuccessesFromFront(attempts, n - 1);
    }
  }

  lemma {:induction false} SettledStays(s: Status, attempts: seq<Attempt>)
    requires !s.Waiting?
    ensures Outcome(s, attempts) == s && Successes(s, attempts) == 0
  {
    if attempts != [] {
      SettledStays(s, attempts[1..]);
    }
  }

  /** Five deliveries always contain the deciding one. */
  lemma {:induction false} SomeAttemptDecides(attempts: seq<Attempt>, from: nat) returns (j: nat)
    requires from < MAX_DELIVER && |attempts| >= MAX_DELIVER - from
    ensures Decides(attempts, from, j)
  {
    j := 0;
    while Unsettled(attempts[j]) && from + j < MAX_DELIVER - 1
      invariant from + j < MAX_DELIVER && RetriedBefore(attempts, j)
      decreases MAX_DELIVER - j
    {
      j := j + 1;
    }
  }

  lemma {:induction false} NoSuccess(attempts: seq<Attempt>, n: nat)
    requires n <= |attempts|
    ensures SuccessesUpTo(attempts, n) > 0 <==> exists k | 0 <= k < n :: attempts[k].err.None?
  {
    if n > 0 {
      NoSuccess(attempts, n - 1);
    }
  }

  /** So a message is processed at least once exactly if the handler succeeds at one of the first
      five attempts, none of those before having settled the message, and it is settled after
      five in any case. */
  lemma ProcessedWithinFive(attempts: seq<Attempt>)
    requires |attempts| >= MAX_DELIVER
    ensures Successes(Waiting(0), attempts) > 0 <==>
              exists j | 0 <= j < MAX_DELIVER :: RetriedBefore(attempts, j) && attempts[j].err.None?
    ensures !Outcome(Waiting(0), attempts).Waiting?
    ensures Outcome(Waiting(0), attempts).Acked? ==> Successes(Waiting(0), attempts) > 0
  {
    var d := SomeAttemptDecides(attempts, 0);
    DecidingAttempt(attempts, 0, d);
    NoSuccess(attempts, d + 1);
    if k :| 0 <= k < d + 1 && attempts[k].err.None? {
      assert RetriedBefore(attempts, k);
    }
    if j :| 0 <= j < MAX_DELIVER && RetriedBefore(attempts, j) && attempts[j].err.None? {
      assert j <= d;
    }
  }

  lemma {:induction false} TwoSuccesses(attempts: seq<Attempt>, n: nat)
    requires n <= |attempts|
    ensures SuccessesUpTo(attempts, n) > 1
            <==> exists j, k | 0 <= j < k < n :: attempts[j].err.None? && attempts[k].err.None?
  {
    if n > 0 {
      TwoSuccesses(attempts, n - 1);
      NoSuccess(attempts, n - 1);
    }
  }

  /** A message is processed more than once exactly if the acknowledgement of a success is lost and
      the handler succeeds again at a later attempt that is still made. */
  lemma ProcessedTwiceExactly(attempts: seq<Attempt>)
    requires |attempts| >= MAX_DELIVER
    ensures Successes(Waiting(0), attempts) > 1 <==>
              exists j, k | 0 <= j < k < MAX_DELIVER ::
                RetriedBefore(attempts, k) && attempts[j].err.None? && !attempts[j].answered && attempts[k].err.None?
  {
    var d := SomeAttemptDecides(attempts, 0);
    DecidingAttempt(attempts, 0, d);
    TwoSuccesses(attempts, d + 1);
    if j, k :| 0 <= j < k < d + 1 && attempts[j].err.None? && attempts[k].err.None? {
      assert RetriedBefore(attempts, k) && Unsettled(attempts[j]);
    }
    if j, k :| 0 <= j < k < MAX_DELIVER && RetriedBefore(attempts, k)
               && attempts[j].err.None? && !attempts[j].answered && attempts[k].err.None? {
      assert k <= d;
    }
  }

  /** So if every answer arrives it is processed at most once, which is when it is acknowledged. */
  lemma AnsweredMeansOnce(attempts: seq<Attempt>)
    requires |attempts| >= MAX_DELIVER && forall k | 0 <= k < |attempts| :: attempts[k].answered
    ensures Successes(Waiting(0), attempts) == if Outcome(Waiting(0), attempts).Acked? then 1 else 0
  {
    var d := SomeAttemptDecides(attempts, 0);
    DecidingAttempt(attempts, 0, d);
    ProcessedTwiceExactly(attempts);
    ProcessedWithinFive(attempts);
    if !Outcome(Waiting(0), attempts).Acked? {
      NoSuccess(attempts, d + 1);
      assert forall k | 0 <= k < d :: Unsettled(attempts[k]);
    }
  }

  /** And a lost acknowledgement followed by a success processes it again, whatever comes later. */
  lemma LostAckProcessesAgain(metadata: bool, second: Attempt, rest: seq<Attempt>)
    requires second.err.None? && |rest| >= MAX_DELIVER - 2
    ensures Successes(Waiting(0), [Attempt(None, metadata, false), second] + rest) > 1
  {
    var attempts := [Attempt(None, metadata, false), second] + rest;
    ProcessedTwiceExactly(attempts);
    assert RetriedBefore(attempts, 1) && attempts[0].err.None? && !attempts[0].answered && attempts[1].err.None?;
  }

  /** Only marked errors are permanent, and the mark is seen through any number of wrappers. */
  lemma PermanentSurvivesWrapping(err: Error, texts: seq<string>)
    ensures IsPermanent(WrapAll(err, texts)) <==> IsPermanent(err)
    ensures IsPermanent(WrapAll(Permanent(Some(err)).value, texts))
  {
    WrappingKeepsMark(err, texts);
    WrappingKeepsMark(Permanent(Some(err)).value, texts);
  }

  lemma {:induction false} WrappingKeepsMark(err: Error, texts: seq<string>)
    ensures IsPermanent(WrapAll(err, texts)) <==> IsPermanent(err)
    decreases |texts|
  {
    if texts != [] {
      WrappingKeepsMark(Wrapped(texts[0], err), texts[1..]);
    }
  }

  function WrapAll(err: Error, texts: seq<string>): Error
    decreases |texts|
  {
    if texts == [] then err else WrapAll(Wrapped(texts[0], err), texts[1..])
  }
}
