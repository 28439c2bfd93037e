/** The per-link egress scheduler (src/infra/relay_scheduler.rs): what each of
    its lock sections computes, and the consumer and writer tasks as a state
    machine whose steps are single lock sections, channel receives, wake-ups
    and socket writes. */
module Scheduler {
  import opened Frames

  /** Rounds a bucket may stay empty before it is reaped. */
  const IDLE_REAP_PASSES: nat := 8

  datatype Config = Config(bucketCapacity: nat, linkBudget: nat, roundBudget: nat, ingressCapacity: nat)

  /** What the floors applied at spawn establish. */
  predicate ValidConfig(c: Config) {
    MAX_FRAME_PAYLOAD <= c.bucketCapacity <= c.linkBudget && 1 <= c.roundBudget && 1 <= c.ingressCapacity
  }

  function Max(a: nat, b: nat): nat { if a < b then b else a }

  function Floored(c: Config): (r: Config)
    ensures ValidConfig(r)
    ensures ValidConfig(c) ==> r == c
  {
    var capacity := Max(c.bucketCapacity, MAX_FRAME_PAYLOAD);
    Config(capacity, Max(c.linkBudget, capacity), Max(c.roundBudget, 1), Max(c.ingressCapacity, 1))
  }

  // ---------------------------------------------------------------------
  // Buckets and the deficit-round-robin visit

  /** `queuedBytes` is unsigned in the source; that it never underflows is part of
      what `ValidBucket` being invariant says. */
  datatype Bucket = Bucket(queue: seq<Frame>, queuedBytes: int, deficit: int, idlePasses: nat)

  const EMPTY_BUCKET := Bucket([], 0, 0, 0)

  /** A bucket holds deliverable frames of its own stream and counts their bytes. */
  predicate ValidBucket(id: nat, b: Bucket) {
    && (forall f :: f in b.queue ==> InLane(f, Stream(id)) && IsBulk(f))
    && b.queuedBytes == Bytes(b.queue)
  }

  /** How many frames the inner loop pops with this much credit. */
  function Affordable(q: seq<Frame>, credit: int): (n: nat)
    ensures n <= |q|
    ensures Bytes(q[..n]) <= credit || n == 0
    ensures n < |q| ==> credit - Bytes(q[..n]) < q[n].PayloadLen()
  {
    if q == [] || q[0].PayloadLen() > credit then 0
    else
      var rest := Affordable(q[1..], credit - q[0].PayloadLen());
      assert q[..1 + rest] == [q[0]] + q[1..][..rest];
      BytesConcat([q[0]], q[1..][..rest]);
      1 + rest
  }

  /** Frames taken from one bucket by one visit: what the credit affords, and
      never less than one. */
  function ServedCount(b: Bucket, roundBudget: nat): (n: nat)
    ensures n <= |b.queue|
    ensures b.queue != [] ==> 1 <= n
  {
    var n := Affordable(b.queue, b.deficit + roundBudget);
    if n == 0 && b.queue != [] then 1 else n
  }

  function Served(b: Bucket, roundBudget: nat): seq<Frame> {
    b.queue[..ServedCount(b, roundBudget)]
  }

  function Visit(b: Bucket, roundBudget: nat): (r: Bucket)
    ensures b.queue == Served(b, roundBudget) + r.queue
    ensures b.queuedBytes == Bytes(b.queue) ==> r.queuedBytes == Bytes(r.queue)
    ensures b.queuedBytes == Bytes(Served(b, roundBudget)) + r.queuedBytes
  {
    if b.queue == [] then b.(idlePasses := b.idlePasses + 1)
    else
      var n := ServedCount(b, roundBudget);
      BytesSplit(b.queue, n);
      Bucket(b.queue[n..], b.queuedBytes - Bytes(b.queue[..n]), b.deficit + roundBudget - Bytes(b.queue[..n]), 0)
  }

  // ---------------------------------------------------------------------
  // The state behind the mutex

  datatype Shared = Shared(
    priority: seq<Frame>,
    buckets: map<nat, Bucket>,
    totalBucketBytes: int,
    ingressOpen: bool,
    writerDone: bool)

  /** Queues are measured in recorded bytes or in frames. */
  datatype Unit = InBytes | InFrames

  function SizeOf(q: seq<Frame>, u: Unit): nat {
    if u.InBytes? then Bytes(q) else |q|
  }

  function BucketSize(b: Bucket, u: Unit): int {
    if u.InBytes? then b.queuedBytes else |b.queue|
  }

  ghost function Backlog(m: map<nat, Bucket>, u: Unit): int {
    if m == map[] then 0
    else
      var k :| k in m;
      BucketSize(m[k], u) + Backlog(m - {k}, u)
  }

  predicate ValidBuckets(m: map<nat, Bucket>) {
    forall k :: k in m ==> ValidBucket(k, m[k])
  }

  ghost predicate ValidShared(cfg: Config, s: Shared) {
    && ValidBuckets(s.buckets)
    && (forall f :: f in s.priority ==> !f.IsBulkOrdered())
    && (forall k :: k in s.buckets ==> s.buckets[k].queuedBytes <= cfg.bucketCapacity)
    && s.totalBucketBytes == Backlog(s.buckets, InBytes) <= cfg.linkBudget
  }

  function BucketOf(s: Shared, id: nat): Bucket {
    if id in s.buckets then s.buckets[id] else EMPTY_BUCKET
  }

  /** Whether a bulk frame fits its bucket and the link budget right now. */
  predicate Fits(cfg: Config, s: Shared, f: Frame) {
    && BucketOf(s, f.StreamId()).queuedBytes + f.PayloadLen() <= cfg.bucketCapacity
    && s.totalBucketBytes + f.PayloadLen() <= cfg.linkBudget
  }

  datatype BucketEnqueue = Fitted | Park(frame: Frame) | Drop

  function EnqueueOutcome(cfg: Config, s: Shared, f: Frame): BucketEnqueue {
    if s.writerDone then Drop else if Fits(cfg, s, f) then Fitted else Park(f)
  }

  /** The shared state after `enqueue_bucket`; a refused frame still leaves its
      (possibly empty) bucket behind. */
  function EnqueueBucket(cfg: Config, s: Shared, f: Frame): Shared {
    var id := f.StreamId();
    var b := BucketOf(s, id);
    if s.writerDone then s
    else if Fits(cfg, s, f) then
      s.(buckets := s.buckets[id := b.(queue := b.queue + [f], queuedBytes := b.queuedBytes + f.PayloadLen(), idlePasses := 0)],
         totalBucketBytes := s.totalBucketBytes + f.PayloadLen())
    else s.(buckets := s.buckets[id := b])
  }

  // One round-robin pass. The map is visited in an unspecified order, so the
  // order is a parameter of the pass.

  predicate IsOrder(order: seq<nat>, keys: set<nat>) {
    && (forall i, j :: 0 <= i < j < |order| ==> order[i] != order[j])
    && (forall i :: 0 <= i < |order| ==> order[i] in keys)
    && (forall k :: k in keys ==> k in order)
  }

  function PassBatch(m: map<nat, Bucket>, order: seq<nat>, roundBudget: nat): seq<Frame>
    requires forall i :: 0 <= i < |order| ==> order[i] in m
  {
    if order == [] then []
    else Served(m[order[0]], roundBudget) + PassBatch(m, order[1..], roundBudget)
  }

  function VisitAll(m: map<nat, Bucket>, roundBudget: nat): map<nat, Bucket>
  {
    map k | k in m :: Visit(m[k], roundBudget)
  }

  predicate Reapable(b: Bucket) {
    b.queue == [] && b.idlePasses >= IDLE_REAP_PASSES
  }

  function Reap(m: map<nat, Bucket>): map<nat, Bucket> {
    map k | k in m && !Reapable(m[k]) :: m[k]
  }

  predicate AnyBacklog(m: map<nat, Bucket>) {
    exists k :: k in m && m[k].queue != []
  }

  function Pass(s: Shared, order: seq<nat>, roundBudget: nat): Shared
    requires IsOrder(order, s.buckets.Keys)
  {
    s.(buckets := Reap(VisitAll(s.buckets, roundBudget)),
       totalBucketBytes := s.totalBucketBytes - Bytes(PassBatch(s.buckets, order, roundBudget)))
  }

  /** Whether the pass leaves work, or may still get some. */
  predicate MoreWork(s: Shared) {
    s.priority != [] || AnyBacklog(s.buckets) || s.ingressOpen
  }

  // ---------------------------------------------------------------------
  // The two tasks

  datatype ConsumerAt =
    | Selecting               // at the loop head or inside the select
    | Enqueuing(frame: Frame) // holds a bulk frame, about to take the lock
    | Classifying(frame: Frame) // holds a control frame, about to take the lock
    | Signalling              // lock released, about to notify the writer
    | ClosingIngress
    | ClosingSignal
    | ConsumerDone

  datatype WriterAt =
    | Draining
    | WritingPriority(rest: seq<Frame>, hadPriority: bool)
    | Passing(hadPriority: bool)
    | Freed(batch: seq<Frame>, more: bool, hadPriority: bool)
    | WritingBatch(rest: seq<Frame>, served: bool, more: bool, hadPriority: bool)
    | Sleeping
    | Exiting
    | ExitSignal
    | WriterDone

  /** The bounded ingress channels. `accepted` records every frame a producer
      managed to queue. */
  datatype Ingress = Ingress(bulk: seq<Frame>, control: seq<Frame>, producersGone: bool, accepted: seq<Frame>)

  datatype Consumer = Consumer(at: ConsumerAt, parked: Option<Frame>, bulkClosed: bool, controlClosed: bool)

  /** `wire` records what the socket took; `passes` counts round-robin passes. */
  datatype Writer = Writer(at: WriterAt, wire: seq<Frame>, failed: bool, passes: nat)

  /** `work` and `space` are the two stored wake-up permits. */
  datatype State = State(
    ingress: Ingress,
    consumer: Consumer,
    shared: Shared,
    work: bool,
    space: bool,
    writer: Writer)

  const INITIAL := State(
    Ingress([], [], false, []),
    Consumer(Selecting, None, false, false),
    Shared([], map[], 0, true, false),
    false, false,
    Writer(Draining, [], false, 0))

  datatype ConsumerAction =
    | RetryParked
    | ReceiveControl
    | ControlChannelClosed
    | ReceiveBulk
    | BulkChannelClosed
    | Classify
    | Enqueue
    | NotifyWork
    | LeaveLoop
    | CloseIngress
    | NotifyClosed

  datatype WriterAction =
    | DrainPriority
    | WriteFrame
    | FailWrite
    | PriorityWritten
    | RoundRobin(order: seq<nat>)
    | NotifySpace
    | BatchWritten
    | Wake
    | MarkWriterDone
    | NotifyExit

  datatype Action =
    | Send(frame: Frame)
    | DropProducers
    | Consume(c: ConsumerAction)
    | Write(w: WriterAction)

  /** Steps the scheduler takes by itself. */
  predicate IsInternal(a: Action) {
    a.Consume? || a.Write?
  }

  // Producers

  predicate HasRoom(cfg: Config, i: Ingress, f: Frame) {
    if f.IsBulkOrdered() then IsBulk(f) && |i.bulk| < cfg.ingressCapacity
    else |i.control| < cfg.ingressCapacity
  }

  /** `SchedulerIngress::send`: the frame's kind picks the channel. */
  function Accept(i: Ingress, f: Frame): Ingress {
    if f.IsBulkOrdered() then i.(bulk := i.bulk + [f], accepted := i.accepted + [f])
    else i.(control := i.control + [f], accepted := i.accepted + [f])
  }

  // Ingress consumer. A select arm may fire whenever it is ready: the arms'
  // bias is not assumed.

  predicate ConsumerEnabled(s: State, a: ConsumerAction) {
    var c, i := s.consumer, s.ingress;
    match a
    case RetryParked => c.at.Selecting? && c.parked.Some? && s.space
    case ReceiveControl => c.at.Selecting? && !c.controlClosed && i.control != []
    case ControlChannelClosed => c.at.Selecting? && !c.controlClosed && i.control == [] && i.producersGone
    case ReceiveBulk => c.at.Selecting? && !c.bulkClosed && c.parked.None? && i.bulk != []
    case BulkChannelClosed => c.at.Selecting? && !c.bulkClosed && c.parked.None? && i.bulk == [] && i.producersGone
    case Classify => c.at.Classifying?
    case Enqueue => c.at.Enqueuing?
    case NotifyWork => c.at.Signalling?
    case LeaveLoop => c.at.Selecting? && c.bulkClosed && c.controlClosed && c.parked.None?
    case CloseIngress => c.at.ClosingIngress?
    case NotifyClosed => c.at.ClosingSignal?
  }

  function AfterEnqueue(c: Consumer, outcome: BucketEnqueue): Consumer {
    match outcome
    case Fitted => c.(at := Signalling)
    case Park(frame) => c.(at := Selecting, parked := Some(frame))
    case Drop => c.(at := Selecting)
  }

  function ConsumerStep(cfg: Config, s: State, a: ConsumerAction): State
    requires ConsumerEnabled(s, a)
  {
    var c, i := s.consumer, s.ingress;
    match a
    case RetryParked => s.(space := false, consumer := c.(at := Enqueuing(c.parked.value), parked := None))
    case ReceiveControl => s.(ingress := i.(control := i.control[1..]), consumer := c.(at := Classifying(i.control[0])))
    case ControlChannelClosed => s.(consumer := c.(controlClosed := true))
    case ReceiveBulk =>
      var f := i.bulk[0];
      s.(ingress := i.(bulk := i.bulk[1..]),
         consumer := c.(at := if f.IsBulkOrdered() then Enqueuing(f) else Classifying(f)))
    case BulkChannelClosed => s.(consumer := c.(bulkClosed := true))
    case Classify =>
      s.(shared := s.shared.(priority := s.shared.priority + [c.at.frame]), consumer := c.(at := Signalling))
    case Enqueue =>
      s.(shared := EnqueueBucket(cfg, s.shared, c.at.frame),
         consumer := AfterEnqueue(c, EnqueueOutcome(cfg, s.shared, c.at.frame)))
    case NotifyWork => s.(work := true, consumer := c.(at := Selecting))
    case LeaveLoop => s.(consumer := c.(at := ClosingIngress))
    case CloseIngress => s.(shared := s.shared.(ingressOpen := false), consumer := c.(at := ClosingSignal))
    case NotifyClosed => s.(work := true, consumer := c.(at := ConsumerDone))
  }

  // Writer

  /** Frames taken out of the queues and not yet written. */
  function WriterHand(w: WriterAt): seq<Frame> {
    match w
    case WritingPriority(rest, _) => rest
    case Freed(batch, _, _) => batch
    case WritingBatch(rest, _, _, _) => rest
    case _ => []
  }

  predicate IsWriting(w: WriterAt) {
    (w.WritingPriority? || w.WritingBatch?) && w.rest != []
  }

  predicate WriterEnabled(s: State, a: WriterAction) {
    var w := s.writer.at;
    match a
    case DrainPriority => w.Draining?
    case WriteFrame => IsWriting(w)
    case FailWrite => IsWriting(w)
    case PriorityWritten => w.WritingPriority? && w.rest == []
    case RoundRobin(order) => w.Passing? && IsOrder(order, s.shared.buckets.Keys)
    case NotifySpace => w.Freed?
    case BatchWritten => w.WritingBatch? && w.rest == []
    case Wake => w.Sleeping? && s.work
    case MarkWriterDone => w.Exiting?
    case NotifyExit => w.ExitSignal?
  }

  /** End of a writer iteration: exit when drained and closed, sleep when
      nothing was served but more may come, otherwise go round again. */
  function AfterBatch(w: WriterAt): WriterAt
    requires w.WritingBatch?
  {
    if !w.more then (if !w.served then Exiting else Draining)
    else if !w.served && !w.hadPriority then Sleeping
    else Draining
  }

  function AfterPass(cfg: Config, s: State, order: seq<nat>): State
    requires s.writer.at.Passing? && IsOrder(order, s.shared.buckets.Keys)
  {
    var shared := Pass(s.shared, order, cfg.roundBudget);
    var batch := PassBatch(s.shared.buckets, order, cfg.roundBudget);
    s.(shared := shared,
       writer := s.writer.(at := Freed(batch, MoreWork(shared), s.writer.at.hadPriority), passes := s.writer.passes + 1))
  }

  function WriterStep(cfg: Config, s: State, a: WriterAction): State
    requires WriterEnabled(s, a)
  {
    var w, at := s.writer, s.writer.at;
    match a
    case DrainPriority =>
      s.(shared := s.shared.(priority := []),
         writer := w.(at := WritingPriority(s.shared.priority, s.shared.priority != [])))
    case WriteFrame => s.(writer := w.(wire := w.wire + [at.rest[0]], at := at.(rest := at.rest[1..])))
    case FailWrite => s.(writer := w.(failed := true, at := Exiting))
    case PriorityWritten => s.(writer := w.(at := Passing(at.hadPriority)))
    case RoundRobin(order) => AfterPass(cfg, s, order)
    case NotifySpace =>
      s.(space := s.space || at.batch != [],
         writer := w.(at := WritingBatch(at.batch, at.batch != [], at.more, at.hadPriority)))
    case BatchWritten => s.(writer := w.(at := AfterBatch(at)))
    case Wake => s.(work := false, writer := w.(at := Draining))
    case MarkWriterDone => s.(shared := s.shared.(writerDone := true), writer := w.(at := ExitSignal))
    case NotifyExit => s.(space := true, writer := w.(at := WriterDone))
  }

  // The whole scheduler

  predicate Enabled(cfg: Config, s: State, a: Action) {
    match a
    case Send(f) => !s.ingress.producersGone && HasRoom(cfg, s.ingress, f)
    case DropProducers => !s.ingress.producersGone
    case Consume(c) => ConsumerEnabled(s, c)
    case Write(w) => WriterEnabled(s, w)
  }

  function Apply(cfg: Config, s: State, a: Action): State
    requires Enabled(cfg, s, a)
  {
    match a
    case Send(f) => s.(ingress := Accept(s.ingress, f))
    case DropProducers => s.(ingress := s.ingress.(producersGone := true))
    case Consume(c) => ConsumerStep(cfg, s, c)
    case Write(w) => WriterStep(cfg, s, w)
  }

  /** A sequence of steps that can be taken from `s`, and where it leads. */
  predicate Legal(cfg: Config, s: State, acts: seq<Action>)
    decreases |acts|
  {
    acts == [] || (Enabled(cfg, s, acts[0]) && Legal(cfg, Apply(cfg, s, acts[0]), acts[1..]))
  }

  function Exec(cfg: Config, s: State, acts: seq<Action>): State
    requires Legal(cfg, s, acts)
    decreases |acts|
  {
    if acts == [] then s else Exec(cfg, Apply(cfg, s, acts[0]), acts[1..])
  }

  // Runs put together

  lemma {:induction false} LegalConcat(cfg: Config, s: State, xs: seq<Action>, ys: seq<Action>)
    requires Legal(cfg, s, xs) && Legal(cfg, Exec(cfg, s, xs), ys)
    ensures Legal(cfg, s, xs + ys) && Exec(cfg, s, xs + ys) == Exec(cfg, Exec(cfg, s, xs), ys)
    decreases |xs|
  {
    if xs == [] {
      assert xs + ys == ys;
    } else {
      assert (xs + ys)[0] == xs[0] && (xs + ys)[1..] == xs[1..] + ys;
      LegalConcat(cfg, Apply(cfg, s, xs[0]), xs[1..], ys);
    }
  }

  lemma LegalSnoc(cfg: Config, s: State, xs: seq<Action>, a: Action)
    requires Legal(cfg, s, xs) && Enabled(cfg, Exec(cfg, s, xs), a)
    ensures Legal(cfg, s, xs + [a]) && Exec(cfg, s, xs + [a]) == Apply(cfg, Exec(cfg, s, xs), a)
  {
    var t := Exec(cfg, s, xs);
    assert [a][1..] == [];
    assert Legal(cfg, Apply(cfg, t, a), []);
    LegalConcat(cfg, s, xs, [a]);
    assert Exec(cfg, t, [a]) == Exec(cfg, Apply(cfg, t, a), []);
  }

  /** A run from the start that ends in `s`. */
  ghost predicate Reaches(cfg: Config, acts: seq<Action>, s: State) {
    Legal(cfg, INITIAL, acts) && Exec(cfg, INITIAL, acts) == s
  }

  lemma Then(cfg: Config, acts: seq<Action>, s: State, a: Action) returns (longer: seq<Action>)
    requires Reaches(cfg, acts, s) && Enabled(cfg, s, a)
    ensures Reaches(cfg, longer, Apply(cfg, s, a))
  {
    LegalSnoc(cfg, INITIAL, acts, a);
    longer := acts + [a];
  }
}
