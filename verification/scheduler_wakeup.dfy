/** No lost wake-up, no deadlock, and flush: with single stored permits the two
    tasks always wake each other, every burst of internal steps is finite, and
    when nothing can move any more everything accepted is on the wire. */
module SchedulerWakeup {
  import opened Frames
  import opened Scheduler
  import opened SchedulerAccounting
  import opened SchedulerOrder

  // ---------------------------------------------------------------------
  // Consumer to writer

  /** The writer has, or is about to be given, a wake-up permit. */
  predicate Alerted(work: bool, c: ConsumerAt) {
    work || c.Signalling? || c.ClosingSignal?
  }

  /** Between a priority drain and the next one. */
  predicate SinceDrain(w: WriterAt) {
    w.WritingPriority? || w.Passing? || w.Freed? || w.WritingBatch? || w.Sleeping?
  }

  /** The last pass found nothing. */
  predicate CameUpEmpty(w: WriterAt) {
    (w.Freed? && w.batch == []) || (w.WritingBatch? && !w.served) || w.Sleeping?
  }

  predicate ExpectsMore(w: WriterAt) {
    w.Sleeping? || ((w.Freed? || w.WritingBatch?) && w.more)
  }

  predicate WorkSignalled(s: State) {
    var alerted, w := Alerted(s.work, s.consumer.at), s.writer.at;
    && (SinceDrain(w) && s.shared.priority != [] ==> alerted)
    && (CameUpEmpty(w) && AnyBacklog(s.shared.buckets) ==> alerted)
    && (CameUpEmpty(w) && ExpectsMore(w) && !s.shared.ingressOpen ==> alerted)
  }

  lemma ConsumerWorkStep(cfg: Config, s: State, a: ConsumerAction)
    requires WorkSignalled(s) && ConsumerEnabled(s, a)
    ensures WorkSignalled(ConsumerStep(cfg, s, a))
  {
  }

  lemma WriterWorkStep(cfg: Config, s: State, a: WriterAction)
    requires WorkSignalled(s) && Shape(cfg, s) && WriterEnabled(s, a)
    ensures WorkSignalled(WriterStep(cfg, s, a))
  {
    if a.RoundRobin? && PassBatch(s.shared.buckets, a.order, cfg.roundBudget) == [] {
      EmptyPassMeansNoBacklog(s.shared.buckets, a.order, cfg.roundBudget);
    }
  }

  // ---------------------------------------------------------------------
  // Writer to consumer

  /** The writer is committed to signalling the consumer. */
  predicate WillSignalSpace(w: WriterAt) {
    (w.Freed? && w.batch != []) || w.Exiting? || w.ExitSignal?
  }

  /** A parked frame without a permit or a signal on its way still does not fit. */
  predicate SpaceSignalled(cfg: Config, s: State) {
    s.consumer.parked.Some? && !s.space && !WillSignalSpace(s.writer.at) ==>
      !Fits(cfg, s.shared, s.consumer.parked.value) && !s.writer.at.WriterDone?
  }

  lemma ConsumerSpaceStep(cfg: Config, s: State, a: ConsumerAction)
    requires SpaceSignalled(cfg, s) && ConsumerShape(s.consumer) && Lifecycle(s) && ConsumerEnabled(s, a)
    ensures SpaceSignalled(cfg, ConsumerStep(cfg, s, a))
  {
  }

  lemma PassSpaceStep(cfg: Config, s: State, order: seq<nat>)
    requires ValidConfig(cfg) && SpaceSignalled(cfg, s) && Shape(cfg, s) && WriterEnabled(s, RoundRobin(order))
    ensures SpaceSignalled(cfg, AfterPass(cfg, s, order))
  {
    if s.consumer.parked.Some? && !s.space {
      RefusedMeansBacklog(cfg, s.shared, s.consumer.parked.value);
      if PassBatch(s.shared.buckets, order, cfg.roundBudget) == [] {
        EmptyPassMeansNoBacklog(s.shared.buckets, order, cfg.roundBudget);
      }
    }
  }

  lemma WriterSpaceStep(cfg: Config, s: State, a: WriterAction)
    requires ValidConfig(cfg) && SpaceSignalled(cfg, s) && Shape(cfg, s) && Lifecycle(s) && WriterEnabled(s, a)
    ensures SpaceSignalled(cfg, WriterStep(cfg, s, a))
  {
    match a
    case RoundRobin(order) => PassSpaceStep(cfg, s, order);
    case _ =>
  }

  // ---------------------------------------------------------------------
  // Every run

  ghost predicate Sound(cfg: Config, s: State) {
    Invariant(cfg, s) && WorkSignalled(s) && SpaceSignalled(cfg, s)
  }

  lemma SoundStep(cfg: Config, s: State, a: Action)
    requires ValidConfig(cfg) && Sound(cfg, s) && Enabled(cfg, s, a)
    ensures Sound(cfg, Apply(cfg, s, a))
  {
    InvariantStep(cfg, s, a);
    match a
    case Consume(c) =>
      ConsumerWorkStep(cfg, s, c);
      ConsumerSpaceStep(cfg, s, c);
    case Write(w) =>
      WriterWorkStep(cfg, s, w);
      WriterSpaceStep(cfg, s, w);
    case _ =>
  }

  lemma {:induction false} SoundRun(cfg: Config, s: State, acts: seq<Action>)
    requires ValidConfig(cfg) && Sound(cfg, s) && Legal(cfg, s, acts)
    ensures Sound(cfg, Exec(cfg, s, acts))
    decreases |acts|
  {
    if acts == [] {
    } else {
      SoundStep(cfg, s, acts[0]);
      SoundRun(cfg, Apply(cfg, s, acts[0]), acts[1..]);
    }
  }

  lemma ReachableSound(cfg: Config, acts: seq<Action>)
    requires ValidConfig(cfg) && Legal(cfg, INITIAL, acts)
    ensures Sound(cfg, Exec(cfg, INITIAL, acts))
  {
    InitialInvariant(cfg);
    SoundRun(cfg, INITIAL, acts);
  }

  /** A writer asleep without a permit has nothing to do, and a frame parked
      without one has a backlog in front of it and a live writer that is awake
      or about to be woken. */
  lemma NoLostWakeup(cfg: Config, acts: seq<Action>)
    requires ValidConfig(cfg) && Legal(cfg, INITIAL, acts)
    ensures var s := Exec(cfg, INITIAL, acts);
            s.writer.at.Sleeping? && !Alerted(s.work, s.consumer.at) ==>
              s.shared.priority == [] && !AnyBacklog(s.shared.buckets) && s.shared.ingressOpen
    ensures var s := Exec(cfg, INITIAL, acts);
            s.consumer.parked.Some? && !s.space && !WillSignalSpace(s.writer.at) ==>
              && AnyBacklog(s.shared.buckets)
              && !WriterLeft(s.writer.at)
              && (s.writer.at.Sleeping? ==> Alerted(s.work, s.consumer.at))
  {
    ReachableSound(cfg, acts);
    var s := Exec(cfg, INITIAL, acts);
    if s.consumer.parked.Some? && !s.space && !WillSignalSpace(s.writer.at) {
      RefusedMeansBacklog(cfg, s.shared, s.consumer.parked.value);
    }
  }
}
