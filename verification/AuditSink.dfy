/**
 The asynchronous audit sink (internal/audit/sink/postgres/postgres.go): a bounded queue between
 any number of producers and one worker, closed once and drained before its writer is closed.
 */
module AuditSink {
  datatype Item<T, R> = Triggers(triggers: seq<T>) | Reverts(reverts: seq<R>)

  datatype Worker<T, R> = Waiting | Writing(item: Item<T, R>) | Exited

  /** `closing` counts the Close calls still waiting for the worker, `writerClosed` the calls that
      closed the writer. `accepted` and `handed` are the batches the queue took and the writer was
      given, in order. */
  datatype State<T, R> = State(
    capacity: nat, queue: seq<Item<T, R>>, closed: bool, worker: Worker<T, R>, closing: nat, writerClosed: nat,
    accepted: seq<Item<T, R>>, handed: seq<Item<T, R>>)

  datatype Sent = Accepted | Ignored | Backpressure | Panic

  const DEFAULT_QUEUE_SIZE := 1024

  function Fresh<T, R>(queueSize: int): State<T, R> {
    State(if queueSize <= 0 then DEFAULT_QUEUE_SIZE else queueSize, [], false, Waiting, 0, 0, [], [])
  }

  predicate Empty<T, R>(item: Item<T, R>) {
    match item
    case Triggers(ts) => |ts| == 0
    case Reverts(rs) => |rs| == 0
  }

  // ---------------------------------------------------------------------------------------
  // Atomic steps
  // ---------------------------------------------------------------------------------------

  /** RecordTrigger and RecordRevert: never wait. Sending on a closed queue panics. */
  function Answer<T, R>(s: State<T, R>, item: Item<T, R>): Sent {
    if Empty(item) then Ignored
    else if s.closed then Panic
    else if |s.queue| < s.capacity then Accepted
    else Backpressure
  }

  function Offer<T, R>(s: State<T, R>, item: Item<T, R>): State<T, R> {
    if Answer(s, item) != Accepted then s else s.(queue := s.queue + [item], accepted := s.accepted + [item])
  }

  /** The worker receives the next batch, or leaves its loop once the queue is closed and empty. */
  function Take<T, R>(s: State<T, R>): State<T, R> {
    if !s.worker.Waiting? then s
    else if s.queue != [] then s.(worker := Writing(s.queue[0]), queue := s.queue[1..])
    else if s.closed then s.(worker := Exited)
    else s
  }

  /** The writer is given the batch; a write that fails is only logged. */
  function Write<T, R>(s: State<T, R>): State<T, R> {
    if !s.worker.Writing? then s else s.(worker := Waiting, handed := s.handed + [s.worker.item])
  }

  /** Close up to its wait; closing the queue happens once. */
  function BeginClose<T, R>(s: State<T, R>): State<T, R> {
    s.(closed := true, closing := s.closing + 1)
  }

  /** A waiting Close sees the worker gone, or its context expires first. */
  function EndClose<T, R>(s: State<T, R>, expired: bool): State<T, R> {
    if s.closing == 0 then s
    else if expired then s.(closing := s.closing - 1)
    else if s.worker.Exited? then s.(closing := s.closing - 1, writerClosed := s.writerClosed + 1)
    else s
  }

  datatype Step<T, R> = Produce(item: Item<T, R>) | WorkerTakes | WorkerWrites | CloseBegins | CloseEnds(expired: bool)

  function Next<T, R>(s: State<T, R>, step: Step<T, R>): State<T, R> {
    match step
    case Produce(item) => Offer(s, item)
    case WorkerTakes => Take(s)
    case WorkerWrites => Write(s)
    case CloseBegins => BeginClose(s)
    case CloseEnds(expired) => EndClose(s, expired)
  }

  function Run<T, R>(s: State<T, R>, steps: seq<Step<T, R>>): State<T, R> {
    if steps == [] then s else Next(Run(s, steps[..|steps| - 1]), steps[|steps| - 1])
  }

  // ---------------------------------------------------------------------------------------
  // The code, one method per atomic step and one for the worker's loop
  // ---------------------------------------------------------------------------------------

  class Sink<T, R> {
    var s: State<T, R>

    constructor (queueSize: int)
      ensures s == Fresh(queueSize)
    {
      s := State(if queueSize <= 0 then DEFAULT_QUEUE_SIZE else queueSize, [], false, Waiting, 0, 0, [], []);
    }

    method RecordTrigger(events: seq<T>) returns (sent: Sent)
      modifies this
      ensures sent == Answer(old(s), Triggers(events)) && s == Offer(old(s), Triggers(events))
      ensures sent == if events == [] then Ignored else if old(s).closed then Panic
                      else if |old(s).queue| < old(s).capacity then Accepted else Backpressure
      ensures sent == Accepted ==> s == old(s).(queue := old(s).queue + [Triggers(events)], accepted := old(s).accepted + [Triggers(events)])
      ensures sent != Accepted ==> s == old(s)
    {
      if |events| == 0 {
        return Ignored;
      }
      sent := Send(Triggers(events));
    }

    method RecordRevert(events: seq<R>) returns (sent: Sent)
      modifies this
      ensures sent == Answer(old(s), Reverts(events)) && s == Offer(old(s), Reverts(events))
      ensures sent == if events == [] then Ignored else if old(s).closed then Panic
                      else if |old(s).queue| < old(s).capacity then Accepted else Backpressure
      ensures sent == Accepted ==> s == old(s).(queue := old(s).queue + [Reverts(events)], accepted := old(s).accepted + [Reverts(events)])
      ensures sent != Accepted ==> s == old(s)
    {
      if |events| == 0 {
        return Ignored;
      }
      sent := Send(Reverts(events));
    }

    /** The select with a default branch. */
    method Send(item: Item<T, R>) returns (sent: Sent)
      requires !Empty(item)
      modifies this
      ensures sent == Answer(old(s), item) && s == Offer(old(s), item)
    {
      if s.closed {
        return Panic;
      }
      if |s.queue| < s.capacity {
        s := s.(queue := s.queue + [item], accepted := s.accepted + [item]);
        return Accepted;
      }
      return Backpressure;
    }

    /** run, from the moment the queue is closed and no producer interferes: whatever the worker is
        at, it hands over everything that was accepted and exits. */
    method Drain()
      requires s.closed && Conserved(s)
      modifies this
      ensures s == old(s).(queue := [], worker := Exited, handed := old(s).accepted)
    {
      if s.worker.Writing? {
        s := s.(worker := Waiting, handed := s.handed + [s.worker.item]);
      }
      ghost var at := s;
      while |s.queue| > 0
        invariant Conserved(s)
        invariant s == at.(queue := s.queue, handed := s.handed)
      {
        var item := s.queue[0];
        s := s.(queue := s.queue[1..], handed := s.handed + [item]);
      }
      s := s.(worker := Exited);
    }
  }

  // ---------------------------------------------------------------------------------------
  // Conservation over every interleaving
  // ---------------------------------------------------------------------------------------

  function InHand<T, R>(w: Worker<T, R>): seq<Item<T, R>> {
    if w.Writing? then [w.item] else []
  }

  /** Accepted batches are the ones handed over, the one in hand and the queued ones, in the order
      of acceptance; the queue fits; and the writer is closed only behind all of them. */
  ghost predicate Conserved<T, R>(s: State<T, R>) {
    && s.accepted == s.handed + InHand(s.worker) + s.queue
    && |s.queue| <= s.capacity
    && (s.worker.Exited? ==> s.closed && s.queue == [])
    && (s.writerClosed > 0 ==> s.worker.Exited?)
  }

  lemma StepConserves<T, R>(s: State<T, R>, step: Step<T, R>)
    requires Conserved(s)
    ensures Conserved(Next(s, step))
  {
    match step
    case Produce(item) =>
      assert s.handed + InHand(s.worker) + (s.queue + [item]) == s.handed + InHand(s.worker) + s.queue + [item];
    case WorkerTakes =>
      if s.queue != [] {
        assert [s.queue[0]] + s.queue[1..] == s.queue;
      }
    case _ =>
  }

  lemma {:induction false} RunConserves<T, R>(queueSize: int, steps: seq<Step<T, R>>)
    ensures Conserved(Run(Fresh<T, R>(queueSize), steps))
  {
    if steps != [] {
      RunConserves(queueSize, steps[..|steps| - 1]);
      StepConserves(Run(Fresh<T, R>(queueSize), steps[..|steps| - 1]), steps[|steps| - 1]);
    }
  }

  /** How many batches the queue took, by the answers the producers got. */
  function AcceptedBy<T, R>(s: State<T, R>, steps: seq<Step<T, R>>): seq<Item<T, R>> {
    if steps == [] then []
    else
      var init, last := steps[..|steps| - 1], steps[|steps| - 1];
      AcceptedBy(s, init) + if last.Produce? && Answer(Run(s, init), last.item) == Accepted then [last.item] else []
  }

  /** What happened to the batches producers were told were accepted: at any moment the writer has
      been given a prefix of them, each once and in order; at most one more is in hand; the rest
      are queued, never more than the capacity. Once some Close has closed the writer there is no
      rest. */
  lemma {:induction false} AcceptedReachTheWriterInOrder<T, R>(queueSize: int, steps: seq<Step<T, R>>)
    ensures var s := Run(Fresh<T, R>(queueSize), steps);
            var taken := AcceptedBy(Fresh<T, R>(queueSize), steps);
            && taken == s.handed + InHand(s.worker) + s.queue
            && |s.queue| <= (if queueSize <= 0 then DEFAULT_QUEUE_SIZE else queueSize)
            && (s.writerClosed > 0 ==> s.handed == taken)
  {
    RunConserves<T, R>(queueSize, steps);
    AcceptedIsLogged(Fresh<T, R>(queueSize), steps);
  }

  lemma {:induction false} AcceptedIsLogged<T, R>(s: State<T, R>, steps: seq<Step<T, R>>)
    ensures Run(s, steps).accepted == s.accepted + AcceptedBy(s, steps)
    ensures Run(s, steps).capacity == s.capacity
  {
    if steps != [] {
      AcceptedIsLogged(s, steps[..|steps| - 1]);
    }
  }

  /** The steps by which the worker, left alone, empties a closed queue. */
  function DrainSteps<T, R>(s: State<T, R>): seq<Step<T, R>> {
    (if s.worker.Writing? then [WorkerWrites] else []) + QueueSteps<T, R>(|s.queue|) + [WorkerTakes]
  }

  function QueueSteps<T, R>(n: nat): seq<Step<T, R>> {
    if n == 0 then [] else [WorkerTakes, WorkerWrites] + QueueSteps(n - 1)
  }

  lemma {:induction false} RunFirst<T, R>(s: State<T, R>, step: Step<T, R>, rest: seq<Step<T, R>>)
    ensures Run(s, [step] + rest) == Run(Next(s, step), rest)
  {
    var all := [step] + rest;
    if rest == [] {
      assert all[..0] == [] && Run(s, []) == s;
    } else {
      RunFirst(s, step, rest[..|rest| - 1]);
      assert all[..|all| - 1] == [step] + rest[..|rest| - 1];
    }
  }

  lemma {:induction false} FirstOfQueueSteps<T, R>(n: nat)
    requires n > 0
    ensures QueueSteps<T, R>(n) + [WorkerTakes] == [WorkerTakes] + ([WorkerWrites] + (QueueSteps(n - 1) + [WorkerTakes]))
  {
  }

  /** The worker hands over the head of the queue and goes on with the rest. */
  lemma {:induction false} HeadDrains<T, R>(s: State<T, R>)
    requires s.closed && s.worker.Waiting? && s.queue != []
    ensures Run(s, QueueSteps(|s.queue|) + [WorkerTakes]) ==
            Run(s.(queue := s.queue[1..], handed := s.handed + [s.queue[0]]), QueueSteps(|s.queue| - 1) + [WorkerTakes])
  {
    var rest := QueueSteps<T, R>(|s.queue| - 1) + [WorkerTakes];
    assert Write(Take(s)) == s.(queue := s.queue[1..], handed := s.handed + [s.queue[0]]);
    FirstOfQueueSteps<T, R>(|s.queue|);
    RunFirst(s, WorkerTakes, [WorkerWrites] + rest);
    RunFirst(Take(s), WorkerWrites, rest);
  }

  lemma {:induction false} QueueDrains<T, R>(s: State<T, R>)
    requires s.closed && s.worker.Waiting?
    ensures Run(s, QueueSteps(|s.queue|) + [WorkerTakes]) == s.(queue := [], worker := Exited, handed := s.handed + s.queue)
    decreases |s.queue|
  {
    if |s.queue| == 0 {
      assert QueueSteps<T, R>(0) + [WorkerTakes] == [WorkerTakes] + [];
      RunFirst(s, WorkerTakes, []);
      assert s.handed + s.queue == s.handed;
    } else {
      var s' := s.(queue := s.queue[1..], handed := s.handed + [s.queue[0]]);
      HeadDrains(s);
      QueueDrains(s');
      assert s.handed + s.queue == s'.handed + s'.queue;
    }
  }

  /** A closed sink always can finish: from every reachable state the worker's own steps lead to the
      state in which all accepted batches were handed over and Close may close the writer. */
  lemma {:induction false} ClosedSinkDrains<T, R>(s: State<T, R>)
    requires Conserved(s) && s.closed && !s.worker.Exited?
    ensures var s' := Run(s, DrainSteps(s));
            s'.worker.Exited? && s'.handed == s.accepted && s'.accepted == s.accepted
            && (s.closing > 0 ==> EndClose(s', false).writerClosed == s.writerClosed + 1)
  {
    var tail := QueueSteps<T, R>(|s.queue|) + [WorkerTakes];
    if s.worker.Writing? {
      assert DrainSteps(s) == [WorkerWrites] + tail;
      RunFirst(s, WorkerWrites, tail);
      QueueDrains(Write(s));
    } else {
      assert DrainSteps(s) == tail;
      QueueDrains(s);
    }
  }

  /** After the queue is closed nothing is accepted any more. */
  lemma {:induction false} ClosedStaysClosed<T, R>(s: State<T, R>, steps: seq<Step<T, R>>)
    requires s.closed
    ensures Run(s, steps).closed && Run(s, steps).accepted == s.accepted
  {
    if steps != [] {
      ClosedStaysClosed(s, steps[..|steps| - 1]);
    }
  }
}
