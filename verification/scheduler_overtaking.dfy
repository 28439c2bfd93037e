/** When a classified control frame can be overtaken by bulk frames: exactly when the
    writer has already drained the priority queue for the coming pass, or still holds
    bulk frames of the last one. */
module SchedulerOvertaking {
  import opened Frames
  import opened Scheduler
  import opened Sequences
  import opened SchedulerAccounting
  import opened SchedulerOrder
  import opened SchedulerFairness
  import opened SchedulerFlush
  import opened SchedulerControl

  // ---------------------------------------------------------------------
  // Bulk frames taken out by passes so far

  function BulkCount(q: seq<Frame>): nat {
    if q == [] then 0 else (if q[0].IsBulkOrdered() then 1 else 0) + BulkCount(q[1..])
  }

  lemma {:induction false} BulkCountConcat(a: seq<Frame>, b: seq<Frame>)
    ensures BulkCount(a + b) == BulkCount(a) + BulkCount(b)
  {
    if a == [] {
      assert a + b == b;
    } else {
      TailOfConcat(a, b);
      BulkCountConcat(a[1..], b);
    }
  }

  lemma {:induction false} NoBulkInControl(q: seq<Frame>)
    requires AllControl(q)
    ensures BulkCount(q) == 0
  {
    if q == [] {
    } else {
      NoBulkInControl(q[1..]);
    }
  }

  /** Written, or in the writer's hand. */
  function BulkOut(w: Writer): nat {
    BulkCount(w.wire) + BulkCount(WriterHand(w.at))
  }

  lemma WriterKeepsBulkOut(cfg: Config, s: State, a: WriterAction)
    requires Shape(cfg, s) && WriterEnabled(s, a) && !a.RoundRobin? && !a.FailWrite?
    ensures BulkOut(WriterStep(cfg, s, a).writer) == BulkOut(s.writer)
  {
    if a.WriteFrame? {
      var rest := s.writer.at.rest;
      BulkCountConcat(s.writer.wire, [rest[0]]);
      BulkCountConcat([rest[0]], rest[1..]);
      assert rest == [rest[0]] + rest[1..];
    } else if a.DrainPriority? {
      NoBulkInControl(s.shared.priority);
    }
  }

  /** Between two passes no bulk frame leaves the buckets. */
  lemma {:induction false} BulkOutRun(cfg: Config, s: State, acts: seq<Action>)
    requires ValidConfig(cfg) && Invariant(cfg, s) && Legal(cfg, s, acts)
    ensures var t := Exec(cfg, s, acts);
            && s.writer.passes <= t.writer.passes
            && (s.writer.failed ==> t.writer.failed)
            && (t.writer.passes == s.writer.passes && !t.writer.failed ==> BulkOut(t.writer) == BulkOut(s.writer))
    decreases |acts|
  {
    if acts == [] {
    } else {
      var next := Apply(cfg, s, acts[0]);
      InvariantStep(cfg, s, acts[0]);
      BulkOutRun(cfg, next, acts[1..]);
      if acts[0].Write? && !acts[0].w.RoundRobin? && !acts[0].w.FailWrite? {
        WriterKeepsBulkOut(cfg, s, acts[0].w);
      }
    }
  }

  // ---------------------------------------------------------------------
  // Overtaken

  /** From `s` to `t` a bulk frame reached the wire, and some control frame already
      classified in `s` did not. */
  predicate Overtaken(s: State, t: State) {
    && !t.writer.failed
    && BulkCount(t.writer.wire) > BulkCount(s.writer.wire)
    && !(Classified(s) <= ControlWritten(t))
  }

  /** In particular a bulk frame of a later pass, not one already in the writer's hand. */
  predicate OvertakenByPass(s: State, t: State) {
    Overtaken(s, t) && BulkCount(t.writer.wire) > BulkOut(s.writer)
  }

  ghost predicate CanBeOvertaken(cfg: Config, s: State) {
    exists acts :: Legal(cfg, s, acts) && Overtaken(s, Exec(cfg, s, acts))
  }

  ghost predicate CanBeOvertakenByPass(cfg: Config, s: State) {
    exists acts :: Legal(cfg, s, acts) && OvertakenByPass(s, Exec(cfg, s, acts))
  }

  lemma OvertakenNeedsPassAhead(cfg: Config, before: seq<Action>, acts: seq<Action>)
    requires ValidConfig(cfg) && Legal(cfg, INITIAL, before) && Legal(cfg, Exec(cfg, INITIAL, before), acts)
    requires OvertakenByPass(Exec(cfg, INITIAL, before), Exec(cfg, Exec(cfg, INITIAL, before), acts))
    ensures PassesAhead(Exec(cfg, INITIAL, before).writer.at) == 1
  {
    var s := Exec(cfg, INITIAL, before);
    InitialInvariant(cfg);
    InvariantRun(cfg, INITIAL, before);
    BulkOutRun(cfg, s, acts);
    ControlOvertakenByOnePass(cfg, before, acts);
  }

  // ---------------------------------------------------------------------
  // The continuation that overtakes

  /** The writer finishes the control frames in its hand. */
  lemma {:induction false} WriteRest(cfg: Config, s: State) returns (acts: seq<Action>)
    requires s.writer.at.WritingPriority?
    ensures Legal(cfg, s, acts)
    ensures Exec(cfg, s, acts) == s.(writer := s.writer.(
              wire := s.writer.wire + s.writer.at.rest, at := Passing(s.writer.at.hadPriority)))
    decreases |s.writer.at.rest|
  {
    var rest := s.writer.at.rest;
    if rest == [] {
      LegalSnoc(cfg, s, [], Write(PriorityWritten));
      acts := [] + [Write(PriorityWritten)];
      assert s.writer.wire + rest == s.writer.wire;
    } else {
      LegalSnoc(cfg, s, [], Write(WriteFrame));
      var first := [] + [Write(WriteFrame)];
      var more := WriteRest(cfg, Exec(cfg, s, first));
      LegalConcat(cfg, s, first, more);
      acts := first + more;
      Assoc(s.writer.wire, [rest[0]], rest[1..]);
      assert [rest[0]] + rest[1..] == rest;
    }
  }

  /** One pass and the first frame of its batch. */
  lemma PassAndWrite(cfg: Config, s: State) returns (acts: seq<Action>)
    requires ValidBuckets(s.shared.buckets) && s.writer.at.Passing? && AnyBacklog(s.shared.buckets)
    ensures Legal(cfg, s, acts)
    ensures var t := Exec(cfg, s, acts);
            t.writer.failed == s.writer.failed && |t.writer.wire| == |s.writer.wire| + 1 &&
            s.writer.wire <= t.writer.wire && t.writer.wire[|s.writer.wire|].IsBulkOrdered()
  {
    var order := KeysHaveAnOrder(s.shared.buckets.Keys);
    var batch := PassBatch(s.shared.buckets, order, cfg.roundBudget);
    BatchStartsWithBulk(s.shared.buckets, order, cfg.roundBudget);
    acts := [];
    LegalSnoc(cfg, s, acts, Write(RoundRobin(order)));
    acts := acts + [Write(RoundRobin(order))];
    LegalSnoc(cfg, s, acts, Write(NotifySpace));
    acts := acts + [Write(NotifySpace)];
    LegalSnoc(cfg, s, acts, Write(WriteFrame));
    acts := acts + [Write(WriteFrame)];
    assert Exec(cfg, s, acts).writer.wire == s.writer.wire + [batch[0]];
  }

  lemma BatchStartsWithBulk(m: map<nat, Bucket>, order: seq<nat>, roundBudget: nat)
    requires ValidBuckets(m) && IsOrder(order, m.Keys) && AnyBacklog(m)
    ensures var batch := PassBatch(m, order, roundBudget); batch != [] && batch[0].IsBulkOrdered()
  {
    var id :| id in m && m[id].queue != [];
    EveryBacklogIsServed(m, order, roundBudget, id);
    BatchIsBulk(m, order, roundBudget);
    assert PassBatch(m, order, roundBudget)[0] in PassBatch(m, order, roundBudget);
  }

  lemma OvertakesNow(cfg: Config, s: State) returns (acts: seq<Action>)
    requires Invariant(cfg, s) && s.shared.priority != [] && AnyBacklog(s.shared.buckets)
    requires PassesAhead(s.writer.at) == 1
    ensures Legal(cfg, s, acts) && OvertakenByPass(s, Exec(cfg, s, acts))
  {
    acts := [];
    var hand := WriterHand(s.writer.at);
    if s.writer.at.WritingPriority? {
      acts := WriteRest(cfg, s);
    } else {
      assert s.writer.wire + hand == s.writer.wire;
    }
    var u := Exec(cfg, s, acts);
    assert u.writer.wire == s.writer.wire + hand && u.shared == s.shared && u.writer.at.Passing?;
    var more := PassAndWrite(cfg, u);
    LegalConcat(cfg, s, acts, more);
    acts := acts + more;
    var t := Exec(cfg, s, acts);
    FirstOfPass(s, hand, t);
  }

  /** The wire holds the writer's old hand and one bulk frame, and nothing of the
      priority queue. */
  lemma FirstOfPass(s: State, hand: seq<Frame>, t: State)
    requires hand == WriterHand(s.writer.at) && AllControl(hand) && AllControl(s.shared.priority)
    requires s.shared.priority != [] && !t.writer.failed
    requires |t.writer.wire| == |s.writer.wire + hand| + 1 && s.writer.wire + hand <= t.writer.wire
    requires t.writer.wire[|s.writer.wire + hand|].IsBulkOrdered()
    ensures OvertakenByPass(s, t)
  {
    var front, f := s.writer.wire + hand, t.writer.wire[|s.writer.wire + hand|];
    assert t.writer.wire == front + [f];
    BulkCountConcat(front, [f]);
    BulkCountConcat(s.writer.wire, hand);
    SelectConcat(front, [f], Control);
    SelectConcat(s.writer.wire, hand, Control);
    SelectNone([f], Control);
    SelectAll(s.shared.priority, Control);
    assert |Classified(s)| > |ControlWritten(t)|;
  }

  /** A batch in the writer's hand goes out before anything is drained again. */
  lemma BatchGoesFirst(cfg: Config, s: State) returns (acts: seq<Action>)
    requires Invariant(cfg, s) && s.shared.priority != [] && BulkCount(WriterHand(s.writer.at)) > 0
    ensures Legal(cfg, s, acts) && Overtaken(s, Exec(cfg, s, acts))
  {
    var hand := WriterHand(s.writer.at);
    if s.writer.at.WritingPriority? {
      NoBulkInControl(hand);
    }
    assert hand[0] in hand;
    acts := [];
    if s.writer.at.Freed? {
      LegalSnoc(cfg, s, acts, Write(NotifySpace));
      acts := acts + [Write(NotifySpace)];
    }
    LegalSnoc(cfg, s, acts, Write(WriteFrame));
    acts := acts + [Write(WriteFrame)];
    var t := Exec(cfg, s, acts);
    assert t.writer.wire == s.writer.wire + [hand[0]];
    BulkCountConcat(s.writer.wire, [hand[0]]);
    SelectConcat(s.writer.wire, [hand[0]], Control);
    SelectNone([hand[0]], Control);
    SelectNone(hand, Control);
    SelectAll(s.shared.priority, Control);
    assert |Classified(s)| > |ControlWritten(t)|;
  }

  /** In every reachable state with a classified control frame and a backlog, some
      continuation overtakes it if and only if the writer is past the drain and before
      the pass, or holds bulk frames. */
  lemma OvertakenExactly(cfg: Config, before: seq<Action>)
    requires ValidConfig(cfg) && Legal(cfg, INITIAL, before)
    requires var s := Exec(cfg, INITIAL, before); s.shared.priority != [] && AnyBacklog(s.shared.buckets)
    ensures var s := Exec(cfg, INITIAL, before);
            CanBeOvertaken(cfg, s) <==> PassesAhead(s.writer.at) == 1 || BulkCount(WriterHand(s.writer.at)) > 0
  {
    var s := Exec(cfg, INITIAL, before);
    InitialInvariant(cfg);
    InvariantRun(cfg, INITIAL, before);
    if CanBeOvertaken(cfg, s) && BulkCount(WriterHand(s.writer.at)) == 0 {
      var acts :| Legal(cfg, s, acts) && Overtaken(s, Exec(cfg, s, acts));
      OvertakenNeedsPassAhead(cfg, before, acts);
    }
    if PassesAhead(s.writer.at) == 1 {
      var acts := OvertakesNow(cfg, s);
    } else if BulkCount(WriterHand(s.writer.at)) > 0 {
      var acts := BatchGoesFirst(cfg, s);
    }
  }

  /** Bulk frames not yet taken out by a pass overtake it exactly in that gap. */
  lemma OvertakenByPassExactly(cfg: Config, before: seq<Action>)
    requires ValidConfig(cfg) && Legal(cfg, INITIAL, before)
    requires var s := Exec(cfg, INITIAL, before); s.shared.priority != [] && AnyBacklog(s.shared.buckets)
    ensures var s := Exec(cfg, INITIAL, before); CanBeOvertakenByPass(cfg, s) <==> PassesAhead(s.writer.at) == 1
  {
    var s := Exec(cfg, INITIAL, before);
    InitialInvariant(cfg);
    InvariantRun(cfg, INITIAL, before);
    if CanBeOvertakenByPass(cfg, s) {
      var acts :| Legal(cfg, s, acts) && OvertakenByPass(s, Exec(cfg, s, acts));
      OvertakenNeedsPassAhead(cfg, before, acts);
    }
    if PassesAhead(s.writer.at) == 1 {
      var acts := OvertakesNow(cfg, s);
    }
  }

  // ---------------------------------------------------------------------
  // One such run

  /** A heartbeat is classified right after the drain; the data queued before it goes
      out while the heartbeat waits in the priority queue. */
  lemma HeartbeatOvertaken(cfg: Config) returns (acts: seq<Action>, t: State)
    requires ValidConfig(cfg)
    ensures Legal(cfg, INITIAL, acts) && Exec(cfg, INITIAL, acts) == t
    ensures t.shared.priority == [Heartbeat] && t.writer.wire == [Data(1, [])]
  {
    var f := Data(1, []);
    acts, t := DataThenHeartbeat(cfg);
    assert [1][1..] == [] && PassBatch(t.shared.buckets, [1], cfg.roundBudget) == [f];
    acts := Then(cfg, acts, t, Write(RoundRobin([1])));
    t := Apply(cfg, t, Write(RoundRobin([1])));
    acts := Then(cfg, acts, t, Write(NotifySpace));
    t := Apply(cfg, t, Write(NotifySpace));
    acts := Then(cfg, acts, t, Write(WriteFrame));
    t := Apply(cfg, t, Write(WriteFrame));
  }

  lemma DataThenHeartbeat(cfg: Config) returns (acts: seq<Action>, t: State)
    requires ValidConfig(cfg)
    ensures Reaches(cfg, acts, t) && t.shared.priority == [Heartbeat] && t.writer == INITIAL.writer.(at := Passing(false))
    ensures t.shared.buckets == map[1 := Bucket([Data(1, [])], 0, 0, 0)]
  {
    var f := Data(1, []);
    acts, t := [], INITIAL;
    acts := Then(cfg, acts, t, Send(f));
    t := Apply(cfg, t, Send(f));
    assert t.ingress.bulk == [f];
    acts := Then(cfg, acts, t, Consume(ReceiveBulk));
    t := Apply(cfg, t, Consume(ReceiveBulk));
    acts := Then(cfg, acts, t, Consume(Enqueue));
    t := Apply(cfg, t, Consume(Enqueue));
    assert [] + [f] == [f];
    acts := Then(cfg, acts, t, Consume(NotifyWork));
    t := Apply(cfg, t, Consume(NotifyWork));
    acts, t := DrainThenHeartbeat(cfg, acts, t);
  }

  lemma DrainThenHeartbeat(cfg: Config, before: seq<Action>, s: State) returns (acts: seq<Action>, t: State)
    requires ValidConfig(cfg) && Reaches(cfg, before, s)
    requires s.ingress.control == [] && !s.ingress.producersGone && s.shared.priority == []
    requires s.consumer == INITIAL.consumer && s.writer == INITIAL.writer
    ensures Reaches(cfg, acts, t) && t.shared == s.shared.(priority := [Heartbeat])
    ensures t.writer == INITIAL.writer.(at := Passing(false))
  {
    acts := Then(cfg, before, s, Write(DrainPriority));
    t := Apply(cfg, s, Write(DrainPriority));
    acts := Then(cfg, acts, t, Send(Heartbeat));
    t := Apply(cfg, t, Send(Heartbeat));
    assert t.ingress.control == [Heartbeat];
    acts := Then(cfg, acts, t, Consume(ReceiveControl));
    t := Apply(cfg, t, Consume(ReceiveControl));
    acts := Then(cfg, acts, t, Consume(Classify));
    t := Apply(cfg, t, Consume(Classify));
    assert [] + [Heartbeat] == [Heartbeat];
    acts := Then(cfg, acts, t, Write(PriorityWritten));
    t := Apply(cfg, t, Write(PriorityWritten));
  }
}
