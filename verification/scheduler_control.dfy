/** Control frames: overtaken by at most one round-robin pass, and never held up
    by a parked bulk frame. */
module SchedulerControl {
  import opened Frames
  import opened Scheduler
  import opened Sequences
  import opened SchedulerAccounting
  import opened SchedulerOrder
  import opened SchedulerWakeup
  import opened SchedulerFlush

  /** Control frames classified so far, in order. */
  function Classified(s: State): seq<Frame> {
    Downstream(s.shared, s.writer, Control)
  }

  function ControlWritten(s: State): seq<Frame> {
    Select(s.writer.wire, Control)
  }

  lemma ClassifiedGrows(cfg: Config, s: State, c: ConsumerAction)
    requires Shape(cfg, s) && ConsumerEnabled(s, c)
    ensures Classified(s) <= Classified(ConsumerStep(cfg, s, c))
  {
    if c.Classify? {
      ClassifyMoves(cfg, s, Control);
    } else {
      assert ConsumerStep(cfg, s, c).shared.priority == s.shared.priority;
    }
  }

  /** Passes that may still run before a control frame classified now is written:
      one when the priority queue was already drained for the coming pass. */
  function PassesAhead(w: WriterAt): nat {
    if w.WritingPriority? || w.Passing? then 1 else 0
  }

  /** How far the classified frames `d` have got when the pass count is to stay
      within `limit`. */
  predicate OnTheirWay(u: State, d: seq<Frame>, limit: nat) {
    || u.writer.failed
    || d <= ControlWritten(u)
    || (d <= Classified(u) && u.writer.passes + PassesAhead(u.writer.at) <= limit)
    || (u.writer.at.WritingPriority? && u.writer.passes == limit
        && d <= ControlWritten(u) + Select(WriterHand(u.writer.at), Control))
  }

  lemma WireGrows(cfg: Config, s: State, a: Action)
    requires Enabled(cfg, s, a)
    ensures ControlWritten(s) <= ControlWritten(Apply(cfg, s, a))
  {
    if a == Write(WriteFrame) {
      SelectConcat(s.writer.wire, [s.writer.at.rest[0]], Control);
    }
  }

  lemma WriteKeepsFront(cfg: Config, s: State)
    requires WriterEnabled(s, WriteFrame)
    ensures var t := WriterStep(cfg, s, WriteFrame);
            ControlWritten(t) + Select(WriterHand(t.writer.at), Control)
            == ControlWritten(s) + Select(WriterHand(s.writer.at), Control)
  {
    var f := s.writer.at.rest[0];
    SelectHeadTail(s.writer.at.rest, Control);
    SelectConcat(s.writer.wire, [f], Control);
    Assoc(Select(s.writer.wire, Control), Select([f], Control), Select(s.writer.at.rest[1..], Control));
  }

  lemma DrainTakesAll(cfg: Config, s: State)
    requires AllControl(s.shared.priority) && WriterEnabled(s, DrainPriority)
    ensures var t := WriterStep(cfg, s, DrainPriority);
            Classified(s) == ControlWritten(t) + Select(WriterHand(t.writer.at), Control)
  {
    SelectAll(s.shared.priority, Control);
  }

  lemma WriterOnTheirWay(cfg: Config, u: State, a: WriterAction, d: seq<Frame>, limit: nat)
    requires Shape(cfg, u) && WriterEnabled(u, a) && OnTheirWay(u, d, limit)
    ensures OnTheirWay(WriterStep(cfg, u, a), d, limit)
  {
    if !a.FailWrite? {
      WireGrows(cfg, u, Write(a));
      WriterKeepsDownstream(cfg, u, a, Control);
      if a.WriteFrame? {
        WriteKeepsFront(cfg, u);
      } else if a.DrainPriority? {
        DrainTakesAll(cfg, u);
      }
    }
  }

  lemma OnTheirWayStep(cfg: Config, u: State, a: Action, d: seq<Frame>, limit: nat)
    requires Shape(cfg, u) && Enabled(cfg, u, a) && OnTheirWay(u, d, limit)
    ensures OnTheirWay(Apply(cfg, u, a), d, limit)
  {
    match a
    case Consume(c) =>
      ClassifiedGrows(cfg, u, c);
      assert ConsumerStep(cfg, u, c).writer == u.writer;
    case Write(w) => WriterOnTheirWay(cfg, u, w, d, limit);
    case _ =>
  }

  lemma {:induction false} OnTheirWayRun(cfg: Config, u: State, acts: seq<Action>, d: seq<Frame>, limit: nat)
    requires ValidConfig(cfg) && Invariant(cfg, u) && Legal(cfg, u, acts) && OnTheirWay(u, d, limit)
    ensures OnTheirWay(Exec(cfg, u, acts), d, limit)
    decreases |acts|
  {
    if acts == [] {
    } else {
      OnTheirWayStep(cfg, u, acts[0], d, limit);
      InvariantStep(cfg, u, acts[0]);
      OnTheirWayRun(cfg, Apply(cfg, u, acts[0]), acts[1..], d, limit);
    }
  }

  /** Control frames classified by some point of a run are all on the wire, in
      order, before the second pass after that point starts — before the first,
      unless the writer had already drained the priority queue for it. */
  lemma ControlOvertakenByOnePass(cfg: Config, before: seq<Action>, after: seq<Action>)
    requires ValidConfig(cfg) && Legal(cfg, INITIAL, before)
    requires Legal(cfg, Exec(cfg, INITIAL, before), after)
    ensures var s := Exec(cfg, INITIAL, before); var t := Exec(cfg, s, after);
            !t.writer.failed && t.writer.passes > s.writer.passes + PassesAhead(s.writer.at) ==>
              Classified(s) <= ControlWritten(t)
  {
    var s := Exec(cfg, INITIAL, before);
    InitialInvariant(cfg);
    InvariantRun(cfg, INITIAL, before);
    OnTheirWayRun(cfg, s, after, Classified(s), s.writer.passes + PassesAhead(s.writer.at));
  }

  // ---------------------------------------------------------------------
  // A parked bulk frame does not hold control frames up

  /** Control frames in the priority queue, in the consumer's hand and still in the
      channel, in order. */
  function ControlLine(s: State): seq<Frame> {
    s.shared.priority + (if s.consumer.at.Classifying? then [s.consumer.at.frame] else []) + s.ingress.control
  }

  predicate AllConsume(acts: seq<Action>) {
    forall i :: 0 <= i < |acts| ==> acts[i].Consume?
  }

  lemma ConsumerKeepsLine(cfg: Config, s: State, c: ConsumerAction)
    requires IngressShape(s.ingress) && ConsumerEnabled(s, c)
    ensures ControlLine(ConsumerStep(cfg, s, c)) == ControlLine(s)
    ensures s.consumer.parked.Some? && !s.space && !s.consumer.at.Enqueuing? ==>
      var t := ConsumerStep(cfg, s, c);
      t.consumer.parked == s.consumer.parked && !t.space && !t.consumer.at.Enqueuing?
  {
    if c.ReceiveControl? {
      assert s.ingress.control == [s.ingress.control[0]] + s.ingress.control[1..];
    } else if c.ReceiveBulk? {
      assert s.ingress.bulk[0] in s.ingress.bulk;
    }
  }

  lemma {:induction false} ConsumerRunKeepsLine(cfg: Config, s: State, acts: seq<Action>)
    requires ValidConfig(cfg) && Invariant(cfg, s) && Legal(cfg, s, acts) && AllConsume(acts)
    ensures ControlLine(Exec(cfg, s, acts)) == ControlLine(s)
    ensures s.consumer.parked.Some? && !s.space && !s.consumer.at.Enqueuing? ==>
      Exec(cfg, s, acts).consumer.parked == s.consumer.parked
    decreases |acts|
  {
    if acts == [] {
    } else {
      ConsumerKeepsLine(cfg, s, acts[0].c);
      InvariantStep(cfg, s, acts[0]);
      ConsumerRunKeepsLine(cfg, Apply(cfg, s, acts[0]), acts[1..]);
    }
  }

  ghost predicate ConsumerStuck(s: State) {
    forall c :: !ConsumerEnabled(s, c)
  }

  lemma StuckMeansReceived(cfg: Config, s: State)
    requires Invariant(cfg, s) && ConsumerStuck(s)
    ensures s.ingress.control == [] && !s.consumer.at.Classifying?
  {
    if !s.consumer.at.ConsumerDone? && !ConsumerWaits(s) {
      var c := ConsumerCanMove(s);
    }
  }

  /** However the consumer runs on from a reachable state, and however long a bulk
      frame stays parked: it comes to a stop within a bounded number of steps, and by
      then every control frame it held or had queued is in the priority queue, in
      order. Without a permit the parked frame is still where it was. */
  lemma ParkedFrameDoesNotBlockControl(cfg: Config, before: seq<Action>, acts: seq<Action>)
    requires ValidConfig(cfg) && Legal(cfg, INITIAL, before)
    requires Legal(cfg, Exec(cfg, INITIAL, before), acts) && AllConsume(acts)
    ensures var s := Exec(cfg, INITIAL, before); var t := Exec(cfg, s, acts);
            && |acts| <= Measure(s)
            && (ConsumerStuck(t) ==> t.ingress.control == [] && t.shared.priority == ControlLine(s))
            && (s.consumer.parked.Some? && !s.space ==> t.consumer.parked == s.consumer.parked)
  {
    var s := Exec(cfg, INITIAL, before);
    ReachableSound(cfg, before);
    assert AllInternal(acts);
    BurstIsBounded(cfg, s, acts);
    ConsumerRunKeepsLine(cfg, s, acts);
    InvariantRun(cfg, s, acts);
    var t := Exec(cfg, s, acts);
    if ConsumerStuck(t) {
      StuckMeansReceived(cfg, t);
      assert t.shared.priority + [] + [] == t.shared.priority;
    }
  }
}
