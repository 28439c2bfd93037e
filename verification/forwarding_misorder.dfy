/** The other half: a reopening that finds a frame held by another link can always go on
    to misorder frames, as long as the new peer is there and the link takes frames. */
module ForwardingMisorder {
  import opened Frames
  import opened Forwarding
  import opened ForwardingRoutes
  import opened ForwardingProgress
  import opened ForwardingReopen
  import R = Routing
  import S = Scheduler
  import W = SchedulerWakeup
  import L = SchedulerFlush

  /** `dst` is not opened yet again. */
  ghost predicate Quiet(cfg: S.Config, r: Relay, acts: seq<Action>, dst: R.RouteKey)
    requires Legal(cfg, r, acts)
    decreases |acts|
  {
    acts == [] || (!Reopens(r, acts[0], dst) && Quiet(cfg, Apply(cfg, r, acts[0]), acts[1..], dst))
  }

  /** The link's queue took frames for `dst` in an order they were not read in. */
  predicate Misordered(r: Relay, dst: R.RouteKey) {
    !(Arrived(r.egress, dst) <= SentTo(r, dst))
  }

  ghost predicate CanMisorder(cfg: S.Config, r: Relay, dst: R.RouteKey) {
    exists acts :: Legal(cfg, r, acts) && Quiet(cfg, r, acts, dst) && Misordered(Exec(cfg, r, acts), dst)
  }

  // ---------------------------------------------------------------------
  // When it cannot

  lemma {:induction false} QuietIsSafe(cfg: S.Config, r: Relay, acts: seq<Action>, dst: R.RouteKey)
    requires Legal(cfg, r, acts) && Quiet(cfg, r, acts, dst)
    ensures AllSafe(cfg, r, acts, dst)
    decreases |acts|
  {
    if acts == [] {
    } else {
      QuietIsSafe(cfg, Apply(cfg, r, acts[0]), acts[1..], dst);
    }
  }

  /** A queue that is gone takes nothing more, in any order. */
  predicate Frozen(r: Relay, dst: R.RouteKey) {
    dst.connection in r.dead && !Misordered(r, dst)
  }

  lemma FrozenRoute(r: Relay, k: R.RouteKey, f: Frame, legs: R.Legs, dst: R.RouteKey)
    requires Frozen(r, dst) && k in r.legs
    ensures Frozen(Route(r, k, r.legs[k], f).(legs := legs), dst)
  {
    RemapSnoc(Routed(r, dst), Read(k, f), dst.stream);
  }

  lemma FrozenStep(cfg: S.Config, r: Relay, a: Action, dst: R.RouteKey)
    requires Enabled(cfg, r, a) && Frozen(r, dst)
    ensures Frozen(Apply(cfg, r, a), dst)
  {
    match a
    case ReadData(c, f) =>
      var k := R.RouteKey(c, f.StreamId());
      if R.Look(r.legs, k).OpenLeg? {
        FrozenRoute(r, k, f, r.legs, dst);
      }
    case ReadClose(c, f) =>
      var k := R.RouteKey(c, f.StreamId());
      if R.CloseResult(r.legs, k).Forward? {
        FrozenRoute(r, k, f, R.Close(r.legs, k), dst);
      }
    case Schedule(c, step) =>
      assert S.Apply(cfg, r.egress[c], step).ingress.accepted == r.egress[c].ingress.accepted;
    case _ =>
      assert Arrived(Apply(cfg, r, a).egress, dst) == Arrived(r.egress, dst);
  }

  lemma {:induction false} FrozenRun(cfg: S.Config, r: Relay, acts: seq<Action>, dst: R.RouteKey)
    requires Legal(cfg, r, acts) && Frozen(r, dst)
    ensures Frozen(Exec(cfg, r, acts), dst)
    decreases |acts|
  {
    if acts == [] {
    } else {
      FrozenStep(cfg, r, acts[0], dst);
      FrozenRun(cfg, Apply(cfg, r, acts[0]), acts[1..], dst);
    }
  }

  // ---------------------------------------------------------------------
  // Continuations, by where they lead

  ghost predicate Leads(cfg: S.Config, r: Relay, t: Relay, dst: R.RouteKey) {
    exists acts :: Legal(cfg, r, acts) && Quiet(cfg, r, acts, dst) && Exec(cfg, r, acts) == t
  }

  lemma {:induction false} QuietSnoc(cfg: S.Config, r: Relay, acts: seq<Action>, a: Action, dst: R.RouteKey)
    requires Legal(cfg, r, acts) && Quiet(cfg, r, acts, dst) && Enabled(cfg, Exec(cfg, r, acts), a) && !a.OpenRoute?
    ensures Legal(cfg, r, acts + [a]) && Quiet(cfg, r, acts + [a], dst)
    decreases |acts|
  {
    if acts == [] {
      assert (acts + [a])[1..] == [];
    } else {
      QuietSnoc(cfg, Apply(cfg, r, acts[0]), acts[1..], a, dst);
      assert (acts + [a])[1..] == acts[1..] + [a];
    }
  }

  lemma Go(cfg: S.Config, r: Relay, t: Relay, a: Action, dst: R.RouteKey)
    requires Leads(cfg, r, t, dst) && Enabled(cfg, t, a) && !a.OpenRoute?
    ensures Leads(cfg, r, Apply(cfg, t, a), dst)
  {
    var acts :| Legal(cfg, r, acts) && Quiet(cfg, r, acts, dst) && Exec(cfg, r, acts) == t;
    QuietSnoc(cfg, r, acts, a, dst);
    ExecSnoc(cfg, r, acts, a);
  }

  lemma LeadsRunning(cfg: S.Config, r: Relay, t: Relay, dst: R.RouteKey)
    requires S.ValidConfig(cfg) && Running(cfg, r) && Leads(cfg, r, t, dst)
    ensures Running(cfg, t)
  {
    var acts :| Legal(cfg, r, acts) && Quiet(cfg, r, acts, dst) && Exec(cfg, r, acts) == t;
    RunningRun(cfg, r, acts);
  }

  lemma Decreases(cfg: S.Config, s: S.State, step: S.Action)
    requires S.ValidConfig(cfg) && W.Sound(cfg, s) && S.IsInternal(step) && S.Enabled(cfg, s, step)
    ensures L.Measure(S.Apply(cfg, s, step)) < L.Measure(s)
    ensures S.Apply(cfg, s, step).ingress.accepted == s.ingress.accepted
    ensures S.Apply(cfg, s, step).ingress.producersGone == s.ingress.producersGone
  {
    match step {
      case Consume(c) => L.ConsumerDecreases(cfg, s, c);
      case Write(w) => L.WriterDecreases(cfg, s, w);
    }
  }

  /** A scheduler comes to rest. */
  lemma {:induction false} ComesToRest(cfg: S.Config, s: S.State) returns (steps: seq<S.Action>)
    requires S.ValidConfig(cfg) && W.Sound(cfg, s) && 0 <= L.Measure(s)
    ensures S.Legal(cfg, s, steps) && L.AllInternal(steps)
    ensures var t := S.Exec(cfg, s, steps);
            && L.AtRest(cfg, t) && t.ingress.accepted == s.ingress.accepted
            && t.ingress.producersGone == s.ingress.producersGone
    decreases L.Measure(s)
  {
    if L.AtRest(cfg, s) {
      steps := [];
    } else {
      var step :| S.IsInternal(step) && S.Enabled(cfg, s, step);
      var next := S.Apply(cfg, s, step);
      Decreases(cfg, s, step);
      W.SoundStep(cfg, s, step);
      L.MeasureNonNegative(cfg, next);
      var more := ComesToRest(cfg, next);
      steps := [step] + more;
      assert steps[1..] == more;
    }
  }

  lemma {:induction false} ScheduleAll(cfg: S.Config, r: Relay, t: Relay, y: nat, steps: seq<S.Action>, dst: R.RouteKey)
    requires Leads(cfg, r, t, dst) && y in t.egress && S.Legal(cfg, t.egress[y], steps) && L.AllInternal(steps)
    ensures Leads(cfg, r, t.(egress := t.egress[y := S.Exec(cfg, t.egress[y], steps)]), dst)
    decreases |steps|
  {
    if steps == [] {
      assert t == t.(egress := t.egress[y := t.egress[y]]);
    } else {
      var next := S.Apply(cfg, t.egress[y], steps[0]);
      Go(cfg, r, t, Schedule(y, steps[0]), dst);
      ScheduleAll(cfg, r, t.(egress := t.egress[y := next]), y, steps[1..], dst);
      assert t.egress[y := next][y := S.Exec(cfg, next, steps[1..])] == t.egress[y := S.Exec(cfg, next, steps[1..])];
    }
  }

  /** Link `y`'s scheduler comes to rest, and nothing else moves. */
  lemma Drain(cfg: S.Config, r: Relay, t: Relay, y: nat, dst: R.RouteKey) returns (s: S.State)
    requires S.ValidConfig(cfg) && Running(cfg, r) && Leads(cfg, r, t, dst) && y in t.egress
    ensures Leads(cfg, r, t.(egress := t.egress[y := s]), dst) && L.AtRest(cfg, s) && W.Sound(cfg, s)
    ensures s.ingress.accepted == t.egress[y].ingress.accepted
    ensures s.ingress.producersGone == t.egress[y].ingress.producersGone
  {
    LeadsRunning(cfg, r, t, dst);
    L.MeasureNonNegative(cfg, t.egress[y]);
    var steps := ComesToRest(cfg, t.egress[y]);
    W.SoundRun(cfg, t.egress[y], steps);
    ScheduleAll(cfg, r, t, y, steps, dst);
    s := S.Exec(cfg, t.egress[y], steps);
  }

  /** What freeing link `c`'s task leaves alone. */
  ghost predicate OnlyFreed(t: Relay, u: Relay, c: nat, dst: R.RouteKey) {
    && u.legs == t.legs && u.routed == t.routed && u.dead == t.dead && IsReading(u, c)
    && Arrived(u.egress, dst) == Arrived(t.egress, dst)
    && (forall x :: x != c && x in t.tasks ==> x in u.tasks && u.tasks[x] == t.tasks[x])
  }

  lemma QueueFrees(cfg: S.Config, r: Relay, t: Relay, c: nat, dst: R.RouteKey)
    requires Leads(cfg, r, t, dst) && Enabled(cfg, t, Queue(c)) && TaskOk(t, c, t.tasks[c]) && !Holds(t.tasks, c, dst)
    ensures Leads(cfg, r, Apply(cfg, t, Queue(c)), dst) && OnlyFreed(t, Apply(cfg, t, Queue(c)), c, dst)
  {
    Go(cfg, r, t, Queue(c), dst);
    SendArrives(cfg, t, t.tasks[c].outbound, t.tasks[c].frame, dst);
  }

  lemma AbandonFrees(cfg: S.Config, r: Relay, t: Relay, c: nat, dst: R.RouteKey)
    requires Leads(cfg, r, t, dst) && Enabled(cfg, t, Abandon(c))
    ensures Leads(cfg, r, Apply(cfg, t, Abandon(c)), dst) && OnlyFreed(t, Apply(cfg, t, Abandon(c)), c, dst)
  {
    Go(cfg, r, t, Abandon(c), dst);
  }

  /** A task that holds a frame for somewhere else gets rid of it. */
  lemma QueueingFrees(cfg: S.Config, r: Relay, t: Relay, c: nat, dst: R.RouteKey) returns (u: Relay)
    requires S.ValidConfig(cfg) && Running(cfg, r) && Leads(cfg, r, t, dst)
    requires IsQueueing(t, c) && !Holds(t.tasks, c, dst)
    ensures Leads(cfg, r, u, dst) && OnlyFreed(t, u, c, dst)
  {
    var y := t.tasks[c].outbound;
    LeadsRunning(cfg, r, t, dst);
    assert TaskOk(t, c, t.tasks[c]);
    QueuesOnOpen(t, c);
    var s := Drain(cfg, r, t, y, dst);
    var v := t.(egress := t.egress[y := s]);
    assert Arrived(v.egress, dst) == Arrived(t.egress, dst);
    if y in t.dead {
      AbandonFrees(cfg, r, v, c, dst);
      u := Apply(cfg, v, Abandon(c));
    } else {
      RoomAtRest(cfg, s, t.tasks[c].frame);
      QueueFrees(cfg, r, v, c, dst);
      u := Apply(cfg, v, Queue(c));
    }
  }

  lemma Freed(cfg: S.Config, r: Relay, t: Relay, c: nat, dst: R.RouteKey) returns (u: Relay)
    requires S.ValidConfig(cfg) && Running(cfg, r) && Leads(cfg, r, t, dst)
    requires IsPresent(t, c) && !Holds(t.tasks, c, dst)
    ensures Leads(cfg, r, u, dst) && OnlyFreed(t, u, c, dst)
  {
    match t.tasks[c]
    case Reading => u := t;
    case Opening(_, _) =>
      Go(cfg, r, t, RefuseOpen(c), dst);
      u := Apply(cfg, t, RefuseOpen(c));
    case Queueing(_, _, _, _) => u := QueueingFrees(cfg, r, t, c, dst);
  }

  // ---------------------------------------------------------------------
  // Overtaking the frame that is held

  /** Any frame but this one. */
  function Another(f: Frame, stream: nat): Frame {
    Window(stream, if f.Window? then f.credit + 1 else 0)
  }

  /** The new peer, free to read, sends a frame that arrives before the one held. */
  lemma Overtakes(cfg: S.Config, r: Relay, t: Relay, src: R.RouteKey, dst: R.RouteKey, held: Frame) returns (u: Relay)
    requires S.ValidConfig(cfg) && Running(cfg, r) && Leads(cfg, r, t, dst) && IsReading(t, src.connection)
    requires src in t.legs && t.legs[src] == R.RouteLeg(dst, dst.connection, false)
    requires dst.connection !in t.dead && IsOpen(t, dst.connection)
    requires Arrived(t.egress, dst) + [held] == SentTo(t, dst)
    ensures Leads(cfg, r, u, dst) && Misordered(u, dst)
  {
    var c, f := src.connection, Another(held, src.stream);
    Go(cfg, r, t, ReadData(c, f), dst);
    var routed := Route(t, src, t.legs[src], f);
    assert Apply(cfg, t, ReadData(c, f)) == routed;
    RemapSnoc(Routed(t, dst), Read(src, f), dst.stream);
    var s := Drain(cfg, r, routed, dst.connection, dst);
    var v := routed.(egress := routed.egress[dst.connection := s]);
    RoomAtRest(cfg, s, Remap(f, dst.stream));
    Go(cfg, r, v, Queue(c), dst);
    SendArrives(cfg, v, dst.connection, Remap(f, dst.stream), dst);
    u := Apply(cfg, v, Queue(c));
    OutOfOrder(Arrived(t.egress, dst), held, Remap(f, dst.stream));
  }

  lemma OutOfOrder(a: seq<Frame>, f: Frame, g: Frame)
    requires f != g
    ensures !(a + [g] <= a + [f] + [g])
  {
    assert (a + [g])[|a|] == g && (a + [f] + [g])[|a|] == f;
  }

  // ---------------------------------------------------------------------
  // Exactly when

  /** In every run whose reopenings of `dst` were safe so far, the next open of it, of an
      end not in use: some continuation that does not open it again misorders its frames
      if and only if another link than the new peer still holds a frame for it, the new
      peer is there, and the link still takes frames. */
  lemma MisordersExactly(cfg: S.Config, before: seq<Action>, a: Action, dst: R.RouteKey)
    requires S.ValidConfig(cfg) && Legal(cfg, EMPTY, before) && AllSafe(cfg, EMPTY, before, dst)
    requires var r := Exec(cfg, EMPTY, before); Enabled(cfg, r, a) && Reopens(r, a, dst) && Unused(r, a, dst)
    ensures var r := Exec(cfg, EMPTY, before);
            CanMisorder(cfg, Apply(cfg, r, a), dst) <==>
            HeldElsewhere(r, a, dst) && !HasLeft(r, OtherEnd(r, a, dst).connection) && dst.connection !in r.dead
  {
    var r := Exec(cfg, EMPTY, before);
    ReachableRunning(cfg, before);
    OrderlyRun(cfg, EMPTY, before, dst);
    RunningStep(cfg, r, a);
    if HeldElsewhere(r, a, dst) && !HasLeft(r, OtherEnd(r, a, dst).connection) && dst.connection !in r.dead {
      LinksRun(cfg, EMPTY, before);
      CanOvertake(cfg, r, a, dst);
    } else {
      CannotMisorder(cfg, r, a, dst);
    }
  }

  lemma CannotMisorder(cfg: S.Config, r: Relay, a: Action, dst: R.RouteKey)
    requires S.ValidConfig(cfg) && Running(cfg, r) && Orderly(r, dst)
    requires Enabled(cfg, r, a) && Reopens(r, a, dst) && Unused(r, a, dst)
    requires !HeldElsewhere(r, a, dst) || HasLeft(r, OtherEnd(r, a, dst).connection) || dst.connection in r.dead
    ensures !CanMisorder(cfg, Apply(cfg, r, a), dst)
  {
    var t := Apply(cfg, r, a);
    RunningStep(cfg, r, a);
    forall acts | Legal(cfg, t, acts) && Quiet(cfg, t, acts, dst)
      ensures !Misordered(Exec(cfg, t, acts), dst)
    {
      if dst.connection in r.dead {
        FrozenRun(cfg, t, acts, dst);
      } else {
        OrderlyStep(cfg, r, a, dst);
        QuietIsSafe(cfg, t, acts, dst);
        OrderlyRun(cfg, t, acts, dst);
        OrderlyArrives(Exec(cfg, t, acts), dst);
      }
    }
  }

  /** The leg at `src` leads to `dst`, and link `x` still holds the one frame missing
      there. */
  ghost predicate Poised(t: Relay, src: R.RouteKey, dst: R.RouteKey, x: nat) {
    && src in t.legs && t.legs[src] == R.RouteLeg(dst, dst.connection, false) && dst.connection !in t.dead
    && Holds(t.tasks, x, dst) && t.tasks[x].outbound == dst.connection && !Holds(t.tasks, src.connection, dst)
    && Arrived(t.egress, dst) + [t.tasks[x].frame] == SentTo(t, dst)
  }

  lemma ReopeningPoises(cfg: S.Config, r: Relay, a: Action, dst: R.RouteKey, x: nat)
    requires TasksOk(r) && Orderly(r, dst) && Enabled(cfg, r, a) && Reopens(r, a, dst) && dst.connection !in r.dead
    requires Holds(r.tasks, x, dst) && x != OtherEnd(r, a, dst).connection
    ensures Poised(Apply(cfg, r, a), OtherEnd(r, a, dst), dst, x)
  {
    var src, t := OtherEnd(r, a, dst), Apply(cfg, r, a);
    EndsDiffer(r, a.from, a.target);
    assert TaskOk(r, x, r.tasks[x]);
    assert t == AfterOpen(r, a.from, Target(r, a.target));
    assert t.tasks[x] == r.tasks[x] && Holds(t.tasks, x, dst);
    assert !Holds(r.tasks, src.connection, dst);
    assert Arrived(t.egress, dst) == Arrived(r.egress, dst) && SentTo(t, dst) == SentTo(r, dst);
  }

  lemma PoisedMisorders(cfg: S.Config, t: Relay, src: R.RouteKey, dst: R.RouteKey, x: nat)
    requires S.ValidConfig(cfg) && Running(cfg, t) && Poised(t, src, dst, x) && IsPresent(t, src.connection)
    ensures CanMisorder(cfg, t, dst)
  {
    assert Legal(cfg, t, []) && Quiet(cfg, t, [], dst) && Exec(cfg, t, []) == t && Leads(cfg, t, t, dst);
    var u := Freed(cfg, t, t, src.connection, dst);
    LeadsRunning(cfg, t, u, dst);
    QueuesOnOpen(u, x);
    var v := Overtakes(cfg, t, u, src, dst, t.tasks[x].frame);
  }

  /** The peer of a reopened end is there after the open if it had not left before. */
  lemma PeerIsPresent(cfg: S.Config, r: Relay, a: Action, dst: R.RouteKey)
    requires SendersLive(r) && r.tasks.Keys == r.egress.Keys && Enabled(cfg, r, a) && Reopens(r, a, dst)
    requires !HasLeft(r, OtherEnd(r, a, dst).connection)
    ensures IsPresent(Apply(cfg, r, a), OtherEnd(r, a, dst).connection)
  {
    assert Refers(r.tasks[a.from.connection], a.target) && Held(r, a.target);
  }

  lemma CanOvertake(cfg: S.Config, r: Relay, a: Action, dst: R.RouteKey)
    requires S.ValidConfig(cfg) && Running(cfg, r) && Orderly(r, dst) && r.tasks.Keys == r.egress.Keys
    requires Enabled(cfg, r, a) && Reopens(r, a, dst)
    requires HeldElsewhere(r, a, dst) && !HasLeft(r, OtherEnd(r, a, dst).connection) && dst.connection !in r.dead
    ensures CanMisorder(cfg, Apply(cfg, r, a), dst)
  {
    var src := OtherEnd(r, a, dst);
    var x :| Holds(r.tasks, x, dst) && x != src.connection;
    RunningStep(cfg, r, a);
    ReopeningPoises(cfg, r, a, dst, x);
    PeerIsPresent(cfg, r, a, dst);
    PoisedMisorders(cfg, Apply(cfg, r, a), src, dst, x);
  }

  lemma LinksStep(cfg: S.Config, r: Relay, a: Action)
    requires Enabled(cfg, r, a) && r.tasks.Keys == r.egress.Keys && TasksOk(r)
    ensures Apply(cfg, r, a).tasks.Keys == Apply(cfg, r, a).egress.Keys
  {
  }

  lemma {:induction false} LinksRun(cfg: S.Config, r: Relay, acts: seq<Action>)
    requires S.ValidConfig(cfg) && Invariant(cfg, r) && Legal(cfg, r, acts) && r.tasks.Keys == r.egress.Keys
    ensures Exec(cfg, r, acts).tasks.Keys == Exec(cfg, r, acts).egress.Keys
    decreases |acts|
  {
    if acts == [] {
    } else {
      InvariantStep(cfg, r, acts[0]);
      LinksStep(cfg, r, acts[0]);
      LinksRun(cfg, Apply(cfg, r, acts[0]), acts[1..]);
    }
  }
}
