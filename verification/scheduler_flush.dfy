/** Progress: a measure every internal step decreases, what the scheduler looks
    like when it cannot move, and the flush on teardown that follows. */
module SchedulerFlush {
  import opened Frames
  import opened Scheduler
  import opened SchedulerAccounting
  import opened SchedulerOrder
  import opened SchedulerWakeup

  // ---------------------------------------------------------------------
  // Every burst of internal steps is finite

  function ConsumerRank(c: Consumer): nat {
    (match c.at
     case ConsumerDone => 0
     case ClosingSignal => 7
     case ClosingIngress => 8
     case Selecting => 9
     case Signalling => 9 + 7
     case Classifying(_) => 9 + 14
     case Enqueuing(_) => 9 + 16)
    + (if c.parked.Some? then 15 else 0)
    + (if c.bulkClosed then 0 else 1)
    + (if c.controlClosed then 0 else 1)
  }

  function WriterRank(w: WriterAt): nat {
    match w
    case WriterDone => 0
    case ExitSignal => 3
    case Exiting => 4
    case Sleeping => 5
    case Draining => 10
    case WritingPriority(rest, had) => |rest| + if had then 14 else 9
    case Passing(had) => if had then 13 else 8
    case Freed(batch, _, had) => |batch| + if batch != [] then 14 else if had then 12 else 7
    case WritingBatch(rest, served, _, had) => |rest| + if served || had then 11 else 6
  }

  ghost function QueueRank(s: Shared): int {
    6 * |s.priority| + 8 * Backlog(s.buckets, InFrames)
  }

  /** An upper bound on the number of internal steps left. */
  ghost function Measure(s: State): int {
    17 * |s.ingress.bulk| + 15 * |s.ingress.control| + ConsumerRank(s.consumer)
    + QueueRank(s.shared) + (if s.work then 6 else 0) + (if s.space then 2 else 0) + WriterRank(s.writer.at)
  }

  lemma MeasureNonNegative(cfg: Config, s: State)
    requires Shape(cfg, s)
    ensures 0 <= Measure(s)
  {
    BacklogBound(s.shared.buckets, InFrames);
  }

  lemma EnqueueRank(cfg: Config, s: Shared, f: Frame)
    ensures QueueRank(EnqueueBucket(cfg, s, f)) == QueueRank(s) + (if EnqueueOutcome(cfg, s, f).Fitted? then 8 else 0)
  {
    if !s.writerDone {
      BacklogUpdate(s.buckets, f.StreamId(), EnqueueBucket(cfg, s, f).buckets[f.StreamId()], InFrames);
    }
  }

  lemma ConsumerDecreases(cfg: Config, s: State, a: ConsumerAction)
    requires ConsumerShape(s.consumer) && IngressShape(s.ingress) && ConsumerEnabled(s, a)
    ensures Measure(ConsumerStep(cfg, s, a)) < Measure(s)
  {
    if a.Enqueue? {
      EnqueueRank(cfg, s.shared, s.consumer.at.frame);
    }
  }

  lemma WriterDecreases(cfg: Config, s: State, a: WriterAction)
    requires Shape(cfg, s) && WriterEnabled(s, a)
    ensures Measure(WriterStep(cfg, s, a)) < Measure(s)
  {
    if a.RoundRobin? {
      PassBacklog(s.shared.buckets, a.order, cfg.roundBudget, InFrames);
    }
  }

  predicate AllInternal(acts: seq<Action>) {
    forall i :: 0 <= i < |acts| ==> IsInternal(acts[i])
  }

  /** From any sound state the scheduler comes to rest within `Measure` steps of
      its own, whatever the interleaving: no busy polling, no livelock. */
  lemma {:induction false} BurstIsBounded(cfg: Config, s: State, acts: seq<Action>)
    requires ValidConfig(cfg) && Sound(cfg, s) && Legal(cfg, s, acts) && AllInternal(acts)
    ensures |acts| <= Measure(s)
    decreases |acts|
  {
    if acts == [] {
      MeasureNonNegative(cfg, s);
    } else {
      match acts[0] {
        case Consume(c) => ConsumerDecreases(cfg, s, c);
        case Write(w) => WriterDecreases(cfg, s, w);
        case _ =>
      }
      SoundStep(cfg, s, acts[0]);
      BurstIsBounded(cfg, Apply(cfg, s, acts[0]), acts[1..]);
    }
  }

  // ---------------------------------------------------------------------
  // What it means that nothing can move

  ghost predicate AtRest(cfg: Config, s: State) {
    forall a :: IsInternal(a) ==> !Enabled(cfg, s, a)
  }

  /** Everything accepted has been written, lane by lane, in order. */
  ghost predicate AllDelivered(s: State) {
    forall lane :: Select(s.writer.wire, lane) == Select(s.ingress.accepted, lane)
  }

  lemma {:induction false} KeysHaveAnOrder(keys: set<nat>) returns (order: seq<nat>)
    ensures IsOrder(order, keys)
  {
    if keys == {} {
      order := [];
    } else {
      var k :| k in keys;
      var rest := KeysHaveAnOrder(keys - {k});
      order := [k] + rest;
    }
  }

  lemma WriterCanMove(s: State) returns (a: WriterAction)
    requires !s.writer.at.WriterDone? && (s.writer.at.Sleeping? ==> s.work)
    ensures WriterEnabled(s, a)
  {
    match s.writer.at
    case Draining => a := DrainPriority;
    case WritingPriority(rest, _) => a := if rest == [] then PriorityWritten else WriteFrame;
    case Passing(_) =>
      var order := KeysHaveAnOrder(s.shared.buckets.Keys);
      a := RoundRobin(order);
    case Freed(_, _, _) => a := NotifySpace;
    case WritingBatch(rest, _, _, _) => a := if rest == [] then BatchWritten else WriteFrame;
    case Sleeping => a := Wake;
    case Exiting => a := MarkWriterDone;
    case ExitSignal => a := NotifyExit;
  }

  /** The consumer waits in its select: each arm is switched off or not ready,
      and the loop's exit condition does not hold. */
  predicate ConsumerWaits(s: State) {
    var c, i := s.consumer, s.ingress;
    && c.at.Selecting?
    && (c.parked.Some? ==> !s.space)
    && (c.controlClosed || (i.control == [] && !i.producersGone))
    && (c.bulkClosed || c.parked.Some? || (i.bulk == [] && !i.producersGone))
    && !(c.bulkClosed && c.controlClosed && c.parked.None?)
  }

  lemma ConsumerCanMove(s: State) returns (a: ConsumerAction)
    requires !s.consumer.at.ConsumerDone? && !ConsumerWaits(s)
    ensures ConsumerEnabled(s, a)
  {
    var c, i := s.consumer, s.ingress;
    match c.at
    case Selecting =>
      a := if c.parked.Some? && s.space then RetryParked
           else if !c.controlClosed && i.control != [] then ReceiveControl
           else if !c.controlClosed && i.producersGone then ControlChannelClosed
           else if !c.bulkClosed && c.parked.None? && i.bulk != [] then ReceiveBulk
           else if !c.bulkClosed && c.parked.None? && i.producersGone then BulkChannelClosed
           else LeaveLoop;
    case Enqueuing(_) => a := Enqueue;
    case Classifying(_) => a := Classify;
    case Signalling => a := NotifyWork;
    case ClosingIngress => a := CloseIngress;
    case ClosingSignal => a := NotifyClosed;
  }

  lemma AtRestMeansBlocked(cfg: Config, s: State)
    requires AtRest(cfg, s)
    ensures s.writer.at.WriterDone? || (s.writer.at.Sleeping? && !s.work)
    ensures s.consumer.at.ConsumerDone? || ConsumerWaits(s)
  {
    if !s.writer.at.WriterDone? && (s.writer.at.Sleeping? ==> s.work) {
      var w := WriterCanMove(s);
      assert IsInternal(Write(w)) && Enabled(cfg, s, Write(w));
    }
    if !s.consumer.at.ConsumerDone? && !ConsumerWaits(s) {
      var c := ConsumerCanMove(s);
      assert IsInternal(Consume(c)) && Enabled(cfg, s, Consume(c));
    }
  }

  /** With empty queues and empty hands, conservation says everything is out. */
  lemma EmptyMeansDelivered(cfg: Config, s: State)
    requires Invariant(cfg, s) && !s.writer.failed
    requires s.shared.priority == [] && !AnyBacklog(s.shared.buckets)
    requires WriterHand(s.writer.at) == [] && ConsumerHand(s.consumer) == []
    requires s.ingress.bulk == [] && s.ingress.control == []
    ensures AllDelivered(s)
  {
    forall lane
      ensures Select(s.writer.wire, lane) == Select(s.ingress.accepted, lane)
    {
      assert Conserved(s, lane);
      assert Queued(s.shared, lane) == [];
    }
  }

  lemma RestWithoutFailure(cfg: Config, s: State)
    requires ValidConfig(cfg) && Sound(cfg, s) && AtRest(cfg, s) && !s.writer.failed
    ensures s.ingress.bulk == [] && s.ingress.control == [] && ConsumerHand(s.consumer) == []
    ensures s.shared.priority == [] && !AnyBacklog(s.shared.buckets) && WriterHand(s.writer.at) == []
    ensures s.ingress.producersGone <==> s.consumer.at.ConsumerDone?
    ensures s.ingress.producersGone <==> s.writer.at.WriterDone?
  {
    AtRestMeansBlocked(cfg, s);
    if s.writer.at.Sleeping? && s.consumer.parked.Some? && !s.consumer.at.ConsumerDone? {
      RefusedMeansBacklog(cfg, s.shared, s.consumer.parked.value);
    }
  }

  /** At rest, every accepted frame is on the wire unless the socket failed. The
      consumer has exited exactly when the producers are gone, the writer also when the
      socket failed; then the consumer has still emptied both channels, so no producer
      stays blocked. */
  lemma RestMeansDelivered(cfg: Config, s: State)
    requires ValidConfig(cfg) && Sound(cfg, s) && AtRest(cfg, s)
    ensures s.ingress.bulk == [] && s.ingress.control == [] && s.consumer.parked.None?
    ensures !s.writer.failed ==> AllDelivered(s)
    ensures s.consumer.at.ConsumerDone? <==> s.ingress.producersGone
    ensures s.writer.at.WriterDone? <==> s.writer.failed || s.ingress.producersGone
  {
    if !s.writer.failed {
      RestWithoutFailure(cfg, s);
      EmptyMeansDelivered(cfg, s);
    } else {
      AtRestMeansBlocked(cfg, s);
    }
  }

  /** Flush on teardown: once every producer is gone, any run of the scheduler
      is finite, and where it cannot continue both tasks have exited with, absent
      a socket error, everything accepted on the wire in order. */
  lemma FlushOnTeardown(cfg: Config, before: seq<Action>, after: seq<Action>)
    requires ValidConfig(cfg) && Legal(cfg, INITIAL, before)
    requires var s := Exec(cfg, INITIAL, before);
             s.ingress.producersGone && Legal(cfg, s, after)
    ensures var s := Exec(cfg, INITIAL, before); var t := Exec(cfg, s, after);
            && |after| <= Measure(s)
            && t.ingress.accepted == s.ingress.accepted
            && (AtRest(cfg, t) ==>
                  && t.consumer.at.ConsumerDone? && t.writer.at.WriterDone?
                  && (!t.writer.failed ==> AllDelivered(t)))
  {
    var s := Exec(cfg, INITIAL, before);
    ReachableSound(cfg, before);
    OnlyInternalAfterTeardown(cfg, s, after);
    BurstIsBounded(cfg, s, after);
    SoundRun(cfg, s, after);
    var t := Exec(cfg, s, after);
    if AtRest(cfg, t) {
      RestMeansDelivered(cfg, t);
    }
  }

  /** In particular from the moment the last producer is dropped, whenever that is: nothing
      more is accepted, and what was is written. */
  lemma DroppedProducersFlush(cfg: Config, before: seq<Action>, after: seq<Action>)
    requires ValidConfig(cfg) && Legal(cfg, INITIAL, before) && Enabled(cfg, Exec(cfg, INITIAL, before), DropProducers)
    requires Legal(cfg, Apply(cfg, Exec(cfg, INITIAL, before), DropProducers), after)
    ensures var s := Exec(cfg, INITIAL, before); var t := Exec(cfg, Apply(cfg, s, DropProducers), after);
            && t.ingress.accepted == s.ingress.accepted
            && (forall f :: !Enabled(cfg, t, Send(f)))
            && (AtRest(cfg, t) ==>
                  && t.consumer.at.ConsumerDone? && t.writer.at.WriterDone?
                  && (!t.writer.failed ==> AllDelivered(t)))
  {
    LegalSnoc(cfg, INITIAL, before, DropProducers);
    FlushOnTeardown(cfg, before + [DropProducers], after);
    GoneForGood(cfg, Apply(cfg, Exec(cfg, INITIAL, before), DropProducers), after);
  }

  lemma {:induction false} GoneForGood(cfg: Config, s: State, acts: seq<Action>)
    requires s.ingress.producersGone && Legal(cfg, s, acts)
    ensures Exec(cfg, s, acts).ingress.producersGone
    decreases |acts|
  {
    if acts == [] {
    } else {
      GoneForGood(cfg, Apply(cfg, s, acts[0]), acts[1..]);
    }
  }

  /** Whatever limits a scheduler is asked for, zeros included, the floors applied when it
      is spawned are enough. */
  lemma AnyLimitsFlush(asked: Config, before: seq<Action>, after: seq<Action>)
    requires var cfg := Floored(asked);
             Legal(cfg, INITIAL, before) && Exec(cfg, INITIAL, before).ingress.producersGone
             && Legal(cfg, Exec(cfg, INITIAL, before), after)
    ensures var cfg := Floored(asked); var t := Exec(cfg, Exec(cfg, INITIAL, before), after);
            AtRest(cfg, t) && !t.writer.failed ==> AllDelivered(t)
  {
    FlushOnTeardown(Floored(asked), before, after);
  }

  lemma {:induction false} OnlyInternalAfterTeardown(cfg: Config, s: State, acts: seq<Action>)
    requires s.ingress.producersGone && Legal(cfg, s, acts)
    ensures AllInternal(acts)
    ensures var t := Exec(cfg, s, acts); t.ingress.producersGone && t.ingress.accepted == s.ingress.accepted
    decreases |acts|
  {
    if acts == [] {
    } else {
      OnlyInternalAfterTeardown(cfg, Apply(cfg, s, acts[0]), acts[1..]);
      assert IsInternal(acts[0]);
      assert acts == [acts[0]] + acts[1..];
    }
  }
}
