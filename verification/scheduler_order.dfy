/** Per-lane order and conservation: at every step of every interleaving, the
    frames of a lane are exactly spread along the pipeline, in order. */
module SchedulerOrder {
  import opened Frames
  import opened Scheduler
  import opened Sequences
  import opened SchedulerAccounting

  // ---------------------------------------------------------------------
  // What kind of frame can sit where

  predicate AllBulk(q: seq<Frame>) {
    forall f :: f in q ==> IsBulk(f)
  }

  predicate AllControl(q: seq<Frame>) {
    forall f :: f in q ==> !f.IsBulkOrdered()
  }

  predicate IngressShape(i: Ingress) {
    AllBulk(i.bulk) && AllControl(i.control)
  }

  predicate ConsumerShape(c: Consumer) {
    && (c.parked.Some? ==> IsBulk(c.parked.value))
    && (c.at.Enqueuing? ==> IsBulk(c.at.frame) && c.parked.None?)
    && (c.at.Classifying? ==> !c.at.frame.IsBulkOrdered())
  }

  predicate WriterShape(w: Writer) {
    && (w.at.WritingPriority? ==> AllControl(w.at.rest))
    && (w.at.Freed? || w.at.WritingBatch? ==> AllBulk(WriterHand(w.at)))
  }

  ghost predicate Shape(cfg: Config, s: State) {
    IngressShape(s.ingress) && ConsumerShape(s.consumer) && ValidShared(cfg, s.shared) && WriterShape(s.writer)
  }

  lemma ConsumerShapeStep(cfg: Config, s: State, a: ConsumerAction)
    requires ValidConfig(cfg) && Shape(cfg, s) && ConsumerEnabled(s, a)
    ensures Shape(cfg, ConsumerStep(cfg, s, a))
  {
    match a
    case Enqueue => EnqueueKeepsValid(cfg, s.shared, s.consumer.at.frame);
    case _ =>
  }

  lemma {:induction false} BatchIsBulk(m: map<nat, Bucket>, order: seq<nat>, roundBudget: nat)
    requires ValidBuckets(m)
    requires forall i :: 0 <= i < |order| ==> order[i] in m
    ensures AllBulk(PassBatch(m, order, roundBudget))
    decreases |order|
  {
    if order == [] {
    } else {
      BatchIsBulk(m, order[1..], roundBudget);
      assert forall f :: f in Served(m[order[0]], roundBudget) ==> f in m[order[0]].queue;
    }
  }

  lemma WriterShapeStep(cfg: Config, s: State, a: WriterAction)
    requires ValidConfig(cfg) && Shape(cfg, s) && WriterEnabled(s, a)
    ensures Shape(cfg, WriterStep(cfg, s, a))
  {
    match a
    case RoundRobin(order) =>
      PassKeepsValid(cfg, s.shared, order);
      BatchIsBulk(s.shared.buckets, order, cfg.roundBudget);
    case _ =>
  }

  // ---------------------------------------------------------------------
  // Where the tasks can be relative to each other

  predicate ConsumerLeft(c: ConsumerAt) {
    c.ClosingIngress? || c.ClosingSignal? || c.ConsumerDone?
  }

  predicate WriterLeft(w: WriterAt) {
    w.Exiting? || w.ExitSignal? || w.WriterDone?
  }

  /** Nothing queued and nothing can be: the ingress is closed. */
  predicate Drained(s: Shared) {
    !s.ingressOpen && s.priority == [] && !AnyBacklog(s.buckets)
  }

  predicate ConsumerLife(i: Ingress, c: Consumer, s: Shared) {
    && (c.bulkClosed ==> i.producersGone && i.bulk == [])
    && (c.controlClosed ==> i.producersGone && i.control == [])
    && (ConsumerLeft(c.at) ==> c.bulkClosed && c.controlClosed && c.parked.None?)
    && (s.ingressOpen <==> !c.at.ClosingSignal? && !c.at.ConsumerDone?)
  }

  predicate WriterLife(s: Shared, w: Writer) {
    && (s.writerDone <==> w.at.ExitSignal? || w.at.WriterDone?)
    && (w.failed ==> WriterLeft(w.at))
    && (WriterLeft(w.at) && !w.failed ==> Drained(s))
    && ((w.at.Freed? || w.at.WritingBatch?) && !w.at.more ==> Drained(s))
  }

  predicate Lifecycle(s: State) {
    ConsumerLife(s.ingress, s.consumer, s.shared) && WriterLife(s.shared, s.writer)
  }

  lemma ConsumerLifeStep(cfg: Config, s: State, a: ConsumerAction)
    requires Lifecycle(s) && ConsumerEnabled(s, a)
    ensures Lifecycle(ConsumerStep(cfg, s, a))
  {
  }

  lemma WriterLifeStep(cfg: Config, s: State, a: WriterAction)
    requires Lifecycle(s) && WriterEnabled(s, a)
    ensures Lifecycle(WriterStep(cfg, s, a))
  {
  }

  // ---------------------------------------------------------------------
  // Conservation

  /** Frames the consumer has received and not yet placed in a queue. */
  function ConsumerHand(c: Consumer): seq<Frame> {
    (if c.parked.Some? then [c.parked.value] else []) +
    (if c.at.Enqueuing? || c.at.Classifying? then [c.at.frame] else [])
  }

  function Queued(s: Shared, lane: Lane): seq<Frame> {
    match lane
    case Stream(id) => BucketOf(s, id).queue
    case Control => s.priority
  }

  /** A lane from the socket back to the scheduling queues ... */
  function Downstream(s: Shared, w: Writer, lane: Lane): seq<Frame> {
    Select(w.wire, lane) + Select(WriterHand(w.at), lane) + Queued(s, lane)
  }

  /** ... and from the consumer back to the producers. */
  function Upstream(i: Ingress, c: Consumer, lane: Lane): seq<Frame> {
    Select(ConsumerHand(c), lane) + (Select(i.bulk, lane) + Select(i.control, lane))
  }

  ghost predicate Conserved(s: State, lane: Lane) {
    && (!s.writer.failed ==>
          Downstream(s.shared, s.writer, lane) + Upstream(s.ingress, s.consumer, lane) == Select(s.ingress.accepted, lane))
    && Select(s.writer.wire, lane) <= Select(s.ingress.accepted, lane)
  }

  lemma SelectHeadTail(q: seq<Frame>, lane: Lane)
    requires q != []
    ensures Select(q, lane) == Select([q[0]], lane) + Select(q[1..], lane)
  {
    SelectConcat([q[0]], q[1..], lane);
    assert q == [q[0]] + q[1..];
  }

  /** The part of a pass's batch that belongs to one stream is what that
      stream's bucket gave up. */
  lemma {:induction false} BatchOfStream(m: map<nat, Bucket>, order: seq<nat>, roundBudget: nat, id: nat)
    requires ValidBuckets(m)
    requires forall i, j :: 0 <= i < j < |order| ==> order[i] != order[j]
    requires forall i :: 0 <= i < |order| ==> order[i] in m
    ensures Select(PassBatch(m, order, roundBudget), Stream(id))
         == if id in order then Served(m[id], roundBudget) else []
    decreases |order|
  {
    if order == [] {
    } else {
      var k := order[0];
      var first := Served(m[k], roundBudget);
      BatchOfStream(m, order[1..], roundBudget, id);
      SelectConcat(first, PassBatch(m, order[1..], roundBudget), Stream(id));
      assert forall f :: f in first ==> f in m[k].queue;
      if k == id {
        SelectAll(first, Stream(id));
        assert id !in order[1..];
      } else {
        SelectNone(first, Stream(id));
        assert id in order <==> id in order[1..];
      }
    }
  }

  lemma BatchHasNoControl(m: map<nat, Bucket>, order: seq<nat>, roundBudget: nat)
    requires ValidBuckets(m)
    requires forall i :: 0 <= i < |order| ==> order[i] in m
    ensures Select(PassBatch(m, order, roundBudget), Control) == []
  {
    BatchIsBulk(m, order, roundBudget);
    SelectNone(PassBatch(m, order, roundBudget), Control);
  }

  /** A pass splits each lane's queue into the batch and what stays. */
  lemma PassSplitsLane(s: Shared, order: seq<nat>, roundBudget: nat, lane: Lane)
    requires ValidBuckets(s.buckets) && IsOrder(order, s.buckets.Keys)
    ensures Queued(s, lane)
         == Select(PassBatch(s.buckets, order, roundBudget), lane) + Queued(Pass(s, order, roundBudget), lane)
  {
    match lane
    case Control => BatchHasNoControl(s.buckets, order, roundBudget);
    case Stream(id) =>
      BatchOfStream(s.buckets, order, roundBudget, id);
      if id in s.buckets {
        assert id in s.buckets.Keys;
      } else {
        assert id !in order;
      }
  }

  lemma EnqueueExtendsLane(cfg: Config, s: Shared, f: Frame, lane: Lane)
    requires f.IsBulkOrdered() && !s.writerDone
    ensures Queued(EnqueueBucket(cfg, s, f), lane)
         == Queued(s, lane) + if Fits(cfg, s, f) then Select([f], lane) else []
  {
    SelectOne(f, lane);
  }

  // Producer and receive steps rearrange the upstream half only.

  lemma AcceptExtends(i: Ingress, c: Consumer, f: Frame, lane: Lane)
    requires IngressShape(i)
    ensures Upstream(Accept(i, f), c, lane) == Upstream(i, c, lane) + Select([f], lane)
    ensures Select(Accept(i, f).accepted, lane) == Select(i.accepted, lane) + Select([f], lane)
  {
    SelectConcat(i.accepted, [f], lane);
    SelectOne(f, lane);
    if f.IsBulkOrdered() {
      SelectConcat(i.bulk, [f], lane);
      if lane.Stream? {
        SelectNone(i.control, lane);
      }
    } else {
      SelectConcat(i.control, [f], lane);
    }
  }

  lemma RetryKeepsUpstream(cfg: Config, s: State, lane: Lane)
    requires ConsumerEnabled(s, RetryParked)
    ensures var t := ConsumerStep(cfg, s, RetryParked);
            Upstream(t.ingress, t.consumer, lane) == Upstream(s.ingress, s.consumer, lane)
  {
    var t := ConsumerStep(cfg, s, RetryParked);
    assert ConsumerHand(t.consumer) == ConsumerHand(s.consumer);
  }

  lemma ReceiveControlKeepsUpstream(cfg: Config, s: State, lane: Lane)
    requires IngressShape(s.ingress) && ConsumerEnabled(s, ReceiveControl)
    ensures var t := ConsumerStep(cfg, s, ReceiveControl);
            Upstream(t.ingress, t.consumer, lane) == Upstream(s.ingress, s.consumer, lane)
  {
    var t := ConsumerStep(cfg, s, ReceiveControl);
    var f := s.ingress.control[0];
    assert ConsumerHand(t.consumer) == ConsumerHand(s.consumer) + [f];
    ControlPassesBulk(ConsumerHand(s.consumer), s.ingress.bulk, s.ingress.control, lane);
  }

  /** A control frame overtakes no frame of its own lane. */
  lemma ControlPassesBulk(hand: seq<Frame>, bulk: seq<Frame>, control: seq<Frame>, lane: Lane)
    requires control != [] && !control[0].IsBulkOrdered()
    requires forall f :: f in bulk ==> f.IsBulkOrdered()
    ensures Select(hand + [control[0]], lane) + (Select(bulk, lane) + Select(control[1..], lane))
         == Select(hand, lane) + (Select(bulk, lane) + Select(control, lane))
  {
    SelectHeadTail(control, lane);
    SelectConcat(hand, [control[0]], lane);
    if lane.Control? {
      SelectNone(bulk, lane);
    } else {
      SelectNone([control[0]], lane);
    }
  }

  lemma ReceiveBulkKeepsUpstream(cfg: Config, s: State, lane: Lane)
    requires ConsumerShape(s.consumer) && ConsumerEnabled(s, ReceiveBulk)
    ensures var t := ConsumerStep(cfg, s, ReceiveBulk);
            Upstream(t.ingress, t.consumer, lane) == Upstream(s.ingress, s.consumer, lane)
  {
    var t := ConsumerStep(cfg, s, ReceiveBulk);
    SelectHeadTail(s.ingress.bulk, lane);
    assert ConsumerHand(s.consumer) == [];
    assert ConsumerHand(t.consumer) == [s.ingress.bulk[0]];
  }

  lemma DownstreamGrows(a: Shared, b: Shared, w: Writer, moved: seq<Frame>, lane: Lane)
    requires Queued(b, lane) == Queued(a, lane) + moved
    ensures Downstream(b, w, lane) == Downstream(a, w, lane) + moved
  {
  }

  lemma HandGives(i: Ingress, before: Consumer, after: Consumer, moved: seq<Frame>, lane: Lane)
    requires Select(ConsumerHand(before), lane) == moved + Select(ConsumerHand(after), lane)
    ensures moved + Upstream(i, after, lane) == Upstream(i, before, lane)
  {
    Assoc(moved, Select(ConsumerHand(after), lane), Select(i.bulk, lane) + Select(i.control, lane));
  }

  // Classification moves one frame across.

  lemma ClassifyHand(cfg: Config, s: State, lane: Lane)
    requires ConsumerShape(s.consumer) && ConsumerEnabled(s, Classify)
    ensures var t := ConsumerStep(cfg, s, Classify);
            Select(ConsumerHand(s.consumer), lane)
            == Select([s.consumer.at.frame], lane) + Select(ConsumerHand(t.consumer), lane)
  {
    var t := ConsumerStep(cfg, s, Classify);
    var f := s.consumer.at.frame;
    SelectConcat(ConsumerHand(t.consumer), [f], lane);
    assert ConsumerHand(s.consumer) == ConsumerHand(t.consumer) + [f];
    SelectOne(f, lane);
    if lane.Control? {
      SelectNone(ConsumerHand(t.consumer), lane);
    }
  }

  lemma ClassifyQueues(cfg: Config, s: State, lane: Lane)
    requires ConsumerShape(s.consumer) && ConsumerEnabled(s, Classify)
    ensures Queued(ConsumerStep(cfg, s, Classify).shared, lane)
         == Queued(s.shared, lane) + Select([s.consumer.at.frame], lane)
  {
    SelectOne(s.consumer.at.frame, lane);
  }

  lemma ClassifyMoves(cfg: Config, s: State, lane: Lane)
    requires ConsumerShape(s.consumer) && ConsumerEnabled(s, Classify)
    ensures var t := ConsumerStep(cfg, s, Classify); var moved := Select([s.consumer.at.frame], lane);
            && Downstream(t.shared, t.writer, lane) == Downstream(s.shared, s.writer, lane) + moved
            && moved + Upstream(t.ingress, t.consumer, lane) == Upstream(s.ingress, s.consumer, lane)
  {
    var t := ConsumerStep(cfg, s, Classify);
    var moved := Select([s.consumer.at.frame], lane);
    ClassifyQueues(cfg, s, lane);
    DownstreamGrows(s.shared, t.shared, s.writer, moved, lane);
    ClassifyHand(cfg, s, lane);
    HandGives(s.ingress, s.consumer, t.consumer, moved, lane);
  }

  function EnqueueMoved(cfg: Config, s: State, lane: Lane): seq<Frame>
    requires ConsumerEnabled(s, Enqueue)
  {
    if Fits(cfg, s.shared, s.consumer.at.frame) then Select([s.consumer.at.frame], lane) else []
  }

  lemma EnqueueHand(cfg: Config, s: State, lane: Lane)
    requires ConsumerShape(s.consumer) && ConsumerEnabled(s, Enqueue) && !s.shared.writerDone
    ensures var after := AfterEnqueue(s.consumer, EnqueueOutcome(cfg, s.shared, s.consumer.at.frame));
            Select(ConsumerHand(s.consumer), lane) == EnqueueMoved(cfg, s, lane) + Select(ConsumerHand(after), lane)
  {
    var f := s.consumer.at.frame;
    var after := AfterEnqueue(s.consumer, EnqueueOutcome(cfg, s.shared, f));
    assert ConsumerHand(s.consumer) == [f];
    if Fits(cfg, s.shared, f) {
      assert ConsumerHand(after) == [];
    } else {
      assert ConsumerHand(after) == [f];
    }
  }

  lemma EnqueueMoves(cfg: Config, s: State, lane: Lane)
    requires ConsumerShape(s.consumer) && ConsumerEnabled(s, Enqueue) && !s.shared.writerDone
    ensures var t := ConsumerStep(cfg, s, Enqueue);
            var moved := EnqueueMoved(cfg, s, lane);
            && Downstream(t.shared, t.writer, lane) == Downstream(s.shared, s.writer, lane) + moved
            && moved + Upstream(t.ingress, t.consumer, lane) == Upstream(s.ingress, s.consumer, lane)
  {
    var t := ConsumerStep(cfg, s, Enqueue);
    EnqueueExtendsLane(cfg, s.shared, s.consumer.at.frame, lane);
    DownstreamGrows(s.shared, t.shared, s.writer, EnqueueMoved(cfg, s, lane), lane);
    EnqueueHand(cfg, s, lane);
    HandGives(s.ingress, s.consumer, t.consumer, EnqueueMoved(cfg, s, lane), lane);
  }

  /** Moving frames from one half to the other keeps the whole. */
  lemma MoveConserves(s: State, t: State, moved: seq<Frame>, lane: Lane)
    requires Conserved(s, lane)
    requires t.writer.failed == s.writer.failed && t.writer.wire == s.writer.wire
    requires t.ingress.accepted == s.ingress.accepted
    requires !s.writer.failed ==>
      && Downstream(t.shared, t.writer, lane) == Downstream(s.shared, s.writer, lane) + moved
      && moved + Upstream(t.ingress, t.consumer, lane) == Upstream(s.ingress, s.consumer, lane)
    ensures Conserved(t, lane)
  {
    Assoc(Downstream(s.shared, s.writer, lane), moved, Upstream(t.ingress, t.consumer, lane));
  }

  lemma ConsumerConserves(cfg: Config, s: State, a: ConsumerAction, lane: Lane)
    requires Shape(cfg, s) && Lifecycle(s) && Conserved(s, lane) && ConsumerEnabled(s, a)
    ensures Conserved(ConsumerStep(cfg, s, a), lane)
  {
    var t := ConsumerStep(cfg, s, a);
    match a
    case Classify =>
      ClassifyMoves(cfg, s, lane);
      MoveConserves(s, t, Select([s.consumer.at.frame], lane), lane);
    case Enqueue => EnqueueConserves(cfg, s, lane);
    case RetryParked => RetryKeepsUpstream(cfg, s, lane);
    case ReceiveControl => ReceiveControlKeepsUpstream(cfg, s, lane);
    case ReceiveBulk => ReceiveBulkKeepsUpstream(cfg, s, lane);
    case _ =>
      assert ConsumerHand(t.consumer) == ConsumerHand(s.consumer);
  }

  lemma EnqueueConserves(cfg: Config, s: State, lane: Lane)
    requires Shape(cfg, s) && Lifecycle(s) && Conserved(s, lane) && ConsumerEnabled(s, Enqueue)
    ensures Conserved(ConsumerStep(cfg, s, Enqueue), lane)
  {
    var t := ConsumerStep(cfg, s, Enqueue);
    if !s.shared.writerDone {
      EnqueueMoves(cfg, s, lane);
      MoveConserves(s, t, EnqueueMoved(cfg, s, lane), lane);
    }
  }

  // Writer steps rearrange the downstream half only, until a socket error.

  lemma WriteFrameKeepsDownstream(cfg: Config, s: State, lane: Lane)
    requires WriterEnabled(s, WriteFrame)
    ensures var t := WriterStep(cfg, s, WriteFrame);
            Downstream(t.shared, t.writer, lane) == Downstream(s.shared, s.writer, lane)
  {
    var t := WriterStep(cfg, s, WriteFrame);
    SelectHeadTail(s.writer.at.rest, lane);
    SelectConcat(s.writer.wire, [s.writer.at.rest[0]], lane);
    Assoc(Select(s.writer.wire, lane), Select([s.writer.at.rest[0]], lane), Select(WriterHand(t.writer.at), lane));
  }

  lemma BatchTaken(s: Shared, w: Writer, t: Shared, v: Writer, lane: Lane)
    requires WriterHand(w.at) == [] && v.wire == w.wire
    requires Queued(s, lane) == Select(WriterHand(v.at), lane) + Queued(t, lane)
    ensures Downstream(t, v, lane) == Downstream(s, w, lane)
  {
    Assoc(Select(w.wire, lane), Select(WriterHand(v.at), lane), Queued(t, lane));
  }

  lemma PassKeepsDownstream(cfg: Config, s: State, order: seq<nat>, lane: Lane)
    requires ValidBuckets(s.shared.buckets) && WriterEnabled(s, RoundRobin(order))
    ensures var t := AfterPass(cfg, s, order);
            Downstream(t.shared, t.writer, lane) == Downstream(s.shared, s.writer, lane)
  {
    var t := AfterPass(cfg, s, order);
    PassSplitsLane(s.shared, order, cfg.roundBudget, lane);
    BatchTaken(s.shared, s.writer, t.shared, t.writer, lane);
  }

  lemma DrainKeepsDownstream(cfg: Config, s: State, lane: Lane)
    requires AllControl(s.shared.priority) && WriterEnabled(s, DrainPriority)
    ensures var t := WriterStep(cfg, s, DrainPriority);
            Downstream(t.shared, t.writer, lane) == Downstream(s.shared, s.writer, lane)
  {
    var t := WriterStep(cfg, s, DrainPriority);
    if lane.Control? {
      SelectAll(s.shared.priority, lane);
    } else {
      SelectNone(s.shared.priority, lane);
    }
    BatchTaken(s.shared, s.writer, t.shared, t.writer, lane);
  }

  lemma WriterKeepsDownstream(cfg: Config, s: State, a: WriterAction, lane: Lane)
    requires Shape(cfg, s) && WriterEnabled(s, a) && !a.FailWrite?
    ensures var t := WriterStep(cfg, s, a);
            Downstream(t.shared, t.writer, lane) == Downstream(s.shared, s.writer, lane)
  {
    match a
    case DrainPriority => DrainKeepsDownstream(cfg, s, lane);
    case WriteFrame => WriteFrameKeepsDownstream(cfg, s, lane);
    case RoundRobin(order) => PassKeepsDownstream(cfg, s, order, lane);
    case _ =>
  }

  lemma WriterConserves(cfg: Config, s: State, a: WriterAction, lane: Lane)
    requires Shape(cfg, s) && Lifecycle(s) && Conserved(s, lane) && WriterEnabled(s, a)
    ensures Conserved(WriterStep(cfg, s, a), lane)
  {
    if !a.FailWrite? {
      WriterKeepsDownstream(cfg, s, a, lane);
      if a.WriteFrame? {
        var t := WriterStep(cfg, s, a);
        assert Select(t.writer.wire, lane) <= Downstream(t.shared, t.writer, lane);
      }
    }
  }

  // ---------------------------------------------------------------------
  // Every run

  ghost predicate Invariant(cfg: Config, s: State) {
    Shape(cfg, s) && Lifecycle(s) && forall lane :: Conserved(s, lane)
  }

  lemma InvariantStep(cfg: Config, s: State, a: Action)
    requires ValidConfig(cfg) && Invariant(cfg, s) && Enabled(cfg, s, a)
    ensures Invariant(cfg, Apply(cfg, s, a))
  {
    var t := Apply(cfg, s, a);
    match a
    case Send(f) =>
      forall lane
        ensures Conserved(t, lane)
      {
        AcceptExtends(s.ingress, s.consumer, f, lane);
        Assoc(Downstream(s.shared, s.writer, lane), Upstream(s.ingress, s.consumer, lane), Select([f], lane));
        assert Conserved(s, lane);
      }
    case DropProducers =>
      forall lane
        ensures Conserved(t, lane)
      {
        assert Conserved(s, lane);
      }
    case Consume(c) =>
      ConsumerShapeStep(cfg, s, c);
      ConsumerLifeStep(cfg, s, c);
      forall lane
        ensures Conserved(t, lane)
      {
        ConsumerConserves(cfg, s, c, lane);
      }
    case Write(w) =>
      WriterShapeStep(cfg, s, w);
      WriterLifeStep(cfg, s, w);
      forall lane
        ensures Conserved(t, lane)
      {
        WriterConserves(cfg, s, w, lane);
      }
  }

  lemma InitialInvariant(cfg: Config)
    requires ValidConfig(cfg)
    ensures Invariant(cfg, INITIAL)
  {
    assert forall lane :: Queued(INITIAL.shared, lane) == [];
  }

  lemma {:induction false} InvariantRun(cfg: Config, s: State, acts: seq<Action>)
    requires ValidConfig(cfg) && Invariant(cfg, s) && Legal(cfg, s, acts)
    ensures Invariant(cfg, Exec(cfg, s, acts))
    decreases |acts|
  {
    if acts == [] {
    } else {
      InvariantStep(cfg, s, acts[0]);
      InvariantRun(cfg, Apply(cfg, s, acts[0]), acts[1..]);
    }
  }

  /** Order and conservation over every run: what the socket took of a lane is a
      prefix of what was accepted, so no `Close` overtakes its stream's `Data`;
      and until the socket fails, the rest of the lane sits further up the
      pipeline, complete and in order. */
  lemma LaneOrder(cfg: Config, acts: seq<Action>, lane: Lane)
    requires ValidConfig(cfg) && Legal(cfg, INITIAL, acts)
    ensures var s := Exec(cfg, INITIAL, acts);
            && Select(s.writer.wire, lane) <= Select(s.ingress.accepted, lane)
            && (!s.writer.failed ==>
                  Select(s.writer.wire, lane) + Select(WriterHand(s.writer.at), lane) + Queued(s.shared, lane)
                  + (Select(ConsumerHand(s.consumer), lane) + (Select(s.ingress.bulk, lane) + Select(s.ingress.control, lane)))
                  == Select(s.ingress.accepted, lane))
  {
    InitialInvariant(cfg);
    InvariantRun(cfg, INITIAL, acts);
    assert Conserved(Exec(cfg, INITIAL, acts), lane);
  }

  predicate ChannelsBounded(cfg: Config, i: Ingress) {
    |i.bulk| <= cfg.ingressCapacity && |i.control| <= cfg.ingressCapacity
  }

  lemma ChannelsBoundedStep(cfg: Config, s: State, a: Action)
    requires Enabled(cfg, s, a) && ChannelsBounded(cfg, s.ingress)
    ensures ChannelsBounded(cfg, Apply(cfg, s, a).ingress)
  {
  }

  /** Over every run neither ingress channel holds more than its capacity. */
  lemma {:induction false} ChannelsStayBounded(cfg: Config, s: State, acts: seq<Action>)
    requires Legal(cfg, s, acts) && ChannelsBounded(cfg, s.ingress)
    ensures |Exec(cfg, s, acts).ingress.bulk| <= cfg.ingressCapacity
    ensures |Exec(cfg, s, acts).ingress.control| <= cfg.ingressCapacity
    decreases |acts|
  {
    if acts == [] {
    } else {
      ChannelsBoundedStep(cfg, s, acts[0]);
      ChannelsStayBounded(cfg, Apply(cfg, s, acts[0]), acts[1..]);
    }
  }

  /** Bounds: at every step the buckets hold exactly the recorded bytes, within
      the per-stream cap and the link budget. */
  lemma QueuesStayBounded(cfg: Config, acts: seq<Action>)
    requires ValidConfig(cfg) && Legal(cfg, INITIAL, acts)
    ensures var s := Exec(cfg, INITIAL, acts).shared;
            && s.totalBucketBytes == Backlog(s.buckets, InBytes) <= cfg.linkBudget
            && forall k :: k in s.buckets ==> 0 <= Bytes(s.buckets[k].queue) == s.buckets[k].queuedBytes <= cfg.bucketCapacity
  {
    InitialInvariant(cfg);
    InvariantRun(cfg, INITIAL, acts);
  }
}
