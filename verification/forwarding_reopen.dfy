/** Which reopenings misorder frames: an id may be opened again and again without harm as
    long as no other link still holds a frame of an earlier stream for it. */
module ForwardingReopen {
  import opened Frames
  import opened Forwarding
  import opened ForwardingRoutes
  import opened ForwardingReuse
  import R = Routing
  import O = SchedulerOrder
  import S = Scheduler

  // ---------------------------------------------------------------------
  // In order so far

  function SentTo(r: Relay, dst: R.RouteKey): seq<Frame> {
    RemapAll(Routed(r, dst), dst.stream)
  }

  /** A leg leads to `dst` whose link is still there to read frames under it. */
  predicate LiveLeader(r: Relay, k: R.RouteKey, dst: R.RouteKey) {
    k in r.legs && r.legs[k].peer == dst && !HasLeft(r, k.connection)
  }

  /** One task at most holds a frame for `dst`, and it is that of the one link that may
      read more. */
  ghost predicate OneSender(r: Relay, dst: R.RouteKey) {
    && (forall x, y :: Holds(r.tasks, x, dst) && Holds(r.tasks, y, dst) ==> x == y)
    && (forall k, l :: LiveLeader(r, k, dst) && LiveLeader(r, l, dst) ==> k == l)
    && (forall k, x :: LiveLeader(r, k, dst) && Holds(r.tasks, x, dst) ==> x == k.connection)
  }

  /** What the link's queue took, and then what is held for it, is what was routed. */
  ghost predicate NoneMissing(r: Relay, dst: R.RouteKey) {
    var arrived := Arrived(r.egress, dst);
    if dst.connection in r.dead then arrived <= SentTo(r, dst)
    else
      && (forall x :: Holds(r.tasks, x, dst) ==> arrived + [r.tasks[x].frame] == SentTo(r, dst))
      && ((forall x :: !Holds(r.tasks, x, dst)) ==> arrived == SentTo(r, dst))
  }

  ghost predicate Orderly(r: Relay, dst: R.RouteKey) {
    OneSender(r, dst) && NoneMissing(r, dst)
  }

  /** The end that an open pairs with `dst`. */
  function OtherEnd(r: Relay, a: Action, dst: R.RouteKey): R.RouteKey
    requires a.OpenRoute?
  {
    if dst == a.from then Target(r, a.target) else a.from
  }

  predicate Reopens(r: Relay, a: Action, dst: R.RouteKey) {
    a.OpenRoute? && (dst == a.from || dst == Target(r, a.target))
  }

  /** No leg of another end leads to `dst` any more. */
  ghost predicate Unused(r: Relay, a: Action, dst: R.RouteKey)
    requires a.OpenRoute?
  {
    forall k :: LiveLeader(r, k, dst) ==> k == OtherEnd(r, a, dst)
  }

  /** Another link than the new peer still holds a frame for `dst`. */
  ghost predicate HeldElsewhere(r: Relay, a: Action, dst: R.RouteKey)
    requires a.OpenRoute?
  {
    exists x :: Holds(r.tasks, x, dst) && x != OtherEnd(r, a, dst).connection
  }

  /** An open of `dst` finds it unused, and held by nobody but a peer that is there. */
  ghost predicate Safe(r: Relay, a: Action, dst: R.RouteKey) {
    Reopens(r, a, dst) ==>
      Unused(r, a, dst) && (HasLeft(r, OtherEnd(r, a, dst).connection) || !HeldElsewhere(r, a, dst))
  }

  // ---------------------------------------------------------------------
  // Every step keeps it

  lemma RouteOrderly(r: Relay, k: R.RouteKey, f: Frame, legs: R.Legs, dst: R.RouteKey)
    requires Orderly(r, dst) && k in r.legs && IsReading(r, k.connection) && Shrinks(legs, r.legs)
    ensures Orderly(Route(r, k, r.legs[k], f).(legs := legs), dst)
  {
    var t := Route(r, k, r.legs[k], f).(legs := legs);
    RemapSnoc(Routed(r, dst), Read(k, f), dst.stream);
    forall x | x != k.connection
      ensures Holds(t.tasks, x, dst) == Holds(r.tasks, x, dst)
    {
    }
    if r.legs[k].peer == dst {
      assert LiveLeader(r, k, dst);
      assert forall x :: !Holds(r.tasks, x, dst);
      assert Holds(t.tasks, k.connection, dst) && t.tasks[k.connection].frame == Remap(f, dst.stream);
    } else {
      assert forall x :: Holds(t.tasks, x, dst) <==> Holds(r.tasks, x, dst);
    }
    assert forall l :: LiveLeader(t, l, dst) ==> LiveLeader(r, l, dst);
  }

  lemma QueueOrderly(cfg: S.Config, r: Relay, c: nat, dst: R.RouteKey)
    requires TasksOk(r) && Enabled(cfg, r, Queue(c)) && Orderly(r, dst)
    ensures Orderly(Apply(cfg, r, Queue(c)), dst)
  {
    var t, task := Apply(cfg, r, Queue(c)), r.tasks[c];
    assert TaskOk(r, c, task);
    SendArrives(cfg, r, task.outbound, task.frame, dst);
    assert forall x :: Holds(t.tasks, x, dst) <==> Holds(r.tasks, x, dst) && x != c;
    assert forall k :: LiveLeader(t, k, dst) ==> LiveLeader(r, k, dst);
    assert task.dst == dst ==> Holds(r.tasks, c, dst);
  }

  lemma OpenOrderly(r: Relay, a: Action, dst: R.RouteKey)
    requires a.OpenRoute? && a.from.connection in r.tasks && r.tasks[a.from.connection].Opening?
    requires a.from != Target(r, a.target) && Orderly(r, dst) && Safe(r, a, dst)
    ensures Orderly(AfterOpen(r, a.from, Target(r, a.target)), dst)
  {
    var t := AfterOpen(r, a.from, Target(r, a.target));
    assert forall x :: Holds(t.tasks, x, dst) <==> Holds(r.tasks, x, dst);
    forall k | LiveLeader(t, k, dst)
      ensures LiveLeader(r, k, dst) || (Reopens(r, a, dst) && k == OtherEnd(r, a, dst))
    {
    }
    if Reopens(r, a, dst) {
      OpenedSender(r, t, a, dst);
    }
  }

  lemma OpenedSender(r: Relay, t: Relay, a: Action, dst: R.RouteKey)
    requires Reopens(r, a, dst) && Safe(r, a, dst) && OneSender(r, dst)
    requires forall x :: Holds(t.tasks, x, dst) <==> Holds(r.tasks, x, dst)
    requires forall x :: HasLeft(t, x) <==> HasLeft(r, x)
    requires forall k :: LiveLeader(t, k, dst) ==> LiveLeader(r, k, dst) || k == OtherEnd(r, a, dst)
    ensures OneSender(t, dst)
  {
  }

  /** Steps that move no frame for `dst`. */
  lemma SameOrderly(r: Relay, t: Relay, dst: R.RouteKey)
    requires Orderly(r, dst) && t.routed == r.routed && Arrived(t.egress, dst) == Arrived(r.egress, dst)
    requires dst.connection in r.dead ==> dst.connection in t.dead
    requires forall x :: Holds(t.tasks, x, dst) ==> Holds(r.tasks, x, dst) && t.tasks[x] == r.tasks[x]
    requires dst.connection !in t.dead ==> forall x :: Holds(r.tasks, x, dst) ==> Holds(t.tasks, x, dst)
    requires forall k :: LiveLeader(t, k, dst) ==> LiveLeader(r, k, dst)
    ensures Orderly(t, dst)
  {
    if dst.connection in t.dead && dst.connection !in r.dead {
      if x :| Holds(r.tasks, x, dst) {
        assert Arrived(r.egress, dst) <= Arrived(r.egress, dst) + [r.tasks[x].frame];
      }
    }
  }

  lemma LifecycleOrderly(cfg: S.Config, r: Relay, a: Action, dst: R.RouteKey)
    requires TasksOk(r) && Enabled(cfg, r, a) && Orderly(r, dst)
    requires !a.OpenRoute? && !a.ReadData? && !a.ReadClose? && !a.Queue? && !a.QueueControl? && !a.Schedule?
    ensures Orderly(Apply(cfg, r, a), dst)
  {
    var t := Apply(cfg, r, a);
    LegsAre(cfg, r, a);
    LegsShrink(r.legs, a);
    OthersKeepRecord(cfg, r, a);
    assert Arrived(t.egress, dst) == Arrived(r.egress, dst);
    if a.Abandon? {
      assert TaskOk(r, a.c, r.tasks[a.c]);
    }
    forall k | LiveLeader(t, k, dst)
      ensures LiveLeader(r, k, dst)
    {
      LeftStep(cfg, r, a, k.connection);
    }
    SameOrderly(r, t, dst);
  }

  lemma OrderlyStep(cfg: S.Config, r: Relay, a: Action, dst: R.RouteKey)
    requires TasksOk(r) && Enabled(cfg, r, a) && Orderly(r, dst) && Safe(r, a, dst)
    ensures Orderly(Apply(cfg, r, a), dst)
  {
    match a
    case OpenRoute(from, target) =>
      EndsDiffer(r, from, target);
      OpenOrderly(r, a, dst);
    case ReadData(c, f) =>
      var k := R.RouteKey(c, f.StreamId());
      if R.Look(r.legs, k).OpenLeg? {
        RouteOrderly(r, k, f, r.legs, dst);
      }
    case ReadClose(c, f) =>
      var k := R.RouteKey(c, f.StreamId());
      if R.CloseResult(r.legs, k).Forward? {
        CloseFlags(r.legs, k);
        RouteOrderly(r, k, f, R.Close(r.legs, k), dst);
      }
    case Queue(c) => QueueOrderly(cfg, r, c, dst);
    case QueueControl(c, f) =>
      SendArrives(cfg, r, c, f, dst);
      SameOrderly(r, Apply(cfg, r, a), dst);
    case Schedule(c, step) =>
      assert S.Apply(cfg, r.egress[c], step).ingress.accepted == r.egress[c].ingress.accepted;
      SameOrderly(r, Apply(cfg, r, a), dst);
    case _ => LifecycleOrderly(cfg, r, a, dst);
  }

  // ---------------------------------------------------------------------
  // Every run with safe reopenings

  ghost predicate AllSafe(cfg: S.Config, r: Relay, acts: seq<Action>, dst: R.RouteKey)
    requires Legal(cfg, r, acts)
    decreases |acts|
  {
    acts == [] || (Safe(r, acts[0], dst) && AllSafe(cfg, Apply(cfg, r, acts[0]), acts[1..], dst))
  }

  lemma {:induction false} OrderlyRun(cfg: S.Config, r: Relay, acts: seq<Action>, dst: R.RouteKey)
    requires S.ValidConfig(cfg) && Invariant(cfg, r) && Legal(cfg, r, acts)
    requires Orderly(r, dst) && AllSafe(cfg, r, acts, dst)
    ensures Orderly(Exec(cfg, r, acts), dst)
    decreases |acts|
  {
    if acts == [] {
    } else {
      InvariantStep(cfg, r, acts[0]);
      OrderlyStep(cfg, r, acts[0], dst);
      OrderlyRun(cfg, Apply(cfg, r, acts[0]), acts[1..], dst);
    }
  }

  /** Over every run, for every stream id of a link, however often it is opened: if every
      open of it finds it unused and held by nobody but the new peer, the frames on the
      wire under it are a prefix of those routed to it, in the order they were read. */
  lemma ReopenedInOrder(cfg: S.Config, acts: seq<Action>, dst: R.RouteKey)
    requires S.ValidConfig(cfg) && Legal(cfg, EMPTY, acts) && AllSafe(cfg, EMPTY, acts, dst)
    requires dst.connection in Exec(cfg, EMPTY, acts).egress
    ensures var r := Exec(cfg, EMPTY, acts);
            OnWire(r, dst) <= SentTo(r, dst) && DeliversFirst(OnWire(r, dst), Routed(r, dst), dst.stream)
  {
    var r := Exec(cfg, EMPTY, acts);
    InvariantRun(cfg, EMPTY, acts);
    OrderlyRun(cfg, EMPTY, acts, dst);
    OrderlyArrives(r, dst);
    assert O.Invariant(cfg, r.egress[dst.connection]);
    assert O.Conserved(r.egress[dst.connection], Stream(dst.stream));
    PrefixDelivers(OnWire(r, dst), Routed(r, dst), dst.stream);
  }

  lemma OrderlyArrives(r: Relay, dst: R.RouteKey)
    requires NoneMissing(r, dst)
    ensures Arrived(r.egress, dst) <= SentTo(r, dst)
  {
    if x :| Holds(r.tasks, x, dst) {
      assert Arrived(r.egress, dst) <= Arrived(r.egress, dst) + [r.tasks[x].frame];
    }
  }
}
