/** End to end: link tasks that read frames, route them through the leg map and
    queue them on the peer link's egress scheduler (src/infra/relay_link.rs,
    with `Routing` and `Scheduler`). Each lock section, each queueing and each
    scheduler step is one step of the whole relay. */
module Forwarding {
  import opened Frames
  import S = Scheduler
  import O = SchedulerOrder
  import Q = Sequences
  import R = Routing
  import T = RoutingTeardown

  /** A link task is reading; or has looked a target up and is about to open a route
      to it; or holds a frame routed to `dst` that it is queueing on link `outbound`. */
  datatype Task =
    | Reading
    | Opening(from: R.RouteKey, target: nat)
    | Queueing(source: R.RouteKey, dst: R.RouteKey, outbound: nat, frame: Frame)
    | Left

  /** A bulk frame and the key it was read under. */
  datatype Read = Read(from: R.RouteKey, frame: Frame)

  /** `dead` are links whose egress queue refuses frames for good; `opens` counts the
      ids the relay has allocated on each link. The rest records the run: how often a
      key became an end of a route, the other end at that time, and the frames routed
      to it. */
  datatype Relay = Relay(
    legs: R.Legs,
    tasks: map<nat, Task>,
    egress: map<nat, S.State>,
    dead: set<nat>,
    opens: map<nat, nat>,
    uses: map<R.RouteKey, nat>,
    source: map<R.RouteKey, R.RouteKey>,
    routed: map<R.RouteKey, seq<Read>>)

  const EMPTY := Relay(map[], map[], map[], {}, map[], map[], map[], map[])

  datatype Action =
    | Connect(c: nat)
    | Lookup(from: R.RouteKey, target: nat)
    | OpenRoute(from: R.RouteKey, target: nat)
    | RefuseOpen(c: nat)
    | ReadData(c: nat, frame: Frame)   // Data or Window
    | ReadClose(c: nat, frame: Frame)
    | ReadCloseStream(c: nat, stream: nat)
    | Queue(c: nat)
    | Abandon(c: nat)
    | QueueControl(c: nat, frame: Frame)
    | Die(c: nat)
    | Leave(c: nat, keys: seq<R.RouteKey>)
    | Schedule(c: nat, step: S.Action)

  function Remap(f: Frame, id: nat): Frame {
    match f
    case Data(_, payload) => Data(id, payload)
    case Window(_, credit) => Window(id, credit)
    case Close(_) => Close(id)
    case other => other
  }

  /** The same frame under another stream id. */
  predicate Delivers(g: Frame, f: Frame, id: nat) {
    && g.IsBulkOrdered() && g.StreamId() == id
    && (g.Data? <==> f.Data?) && (g.Data? ==> g.payload == f.payload)
    && (g.Window? <==> f.Window?) && (g.Window? ==> g.credit == f.credit)
    && (g.Close? <==> f.Close?)
  }

  /** Frame by frame, the first of those routed to a stream. */
  predicate DeliversFirst(wire: seq<Frame>, q: seq<Read>, id: nat) {
    |wire| <= |q| && forall i :: 0 <= i < |wire| ==> Delivers(wire[i], q[i].frame, id)
  }

  /** What a link's wire should carry of the frames routed to one of its streams. */
  function RemapAll(q: seq<Read>, id: nat): (r: seq<Frame>)
    ensures |r| == |q| && forall i :: 0 <= i < |q| ==> r[i] == Remap(q[i].frame, id)
  {
    seq(|q|, i requires 0 <= i < |q| => Remap(q[i].frame, id))
  }

  function Opened(r: Relay, k: R.RouteKey): nat {
    if k in r.uses then r.uses[k] else 0
  }

  function Routed(r: Relay, k: R.RouteKey): seq<Read> {
    if k in r.routed then r.routed[k] else []
  }

  predicate IsReading(r: Relay, c: nat) {
    c in r.tasks && r.tasks[c].Reading?
  }

  predicate IsQueueing(r: Relay, c: nat) {
    c in r.tasks && r.tasks[c].Queueing?
  }

  /** Connected, and its epilogue has not run. */
  predicate IsPresent(r: Relay, c: nat) {
    c in r.tasks && !r.tasks[c].Left?
  }

  predicate CanSend(cfg: S.Config, r: Relay, c: nat, f: Frame) {
    c in r.egress && c !in r.dead && S.Enabled(cfg, r.egress[c], S.Send(f))
  }

  predicate Refers(t: Task, c: nat) {
    (t.Opening? && t.target == c) || (t.Queueing? && t.outbound == c)
  }

  /** A sender of the link's queue is still about: with its own task, with a task about
      to open a route to it or queueing on it, or in a leg. */
  predicate Held(r: Relay, c: nat) {
    || IsPresent(r, c)
    || (exists x :: x in r.tasks && Refers(r.tasks[x], c))
    || (exists k :: k in r.legs && r.legs[k].outbound == c)
  }

  function Opens(r: Relay, c: nat): nat {
    if c in r.opens then r.opens[c] else 0
  }

  /** Where a node's open leads: the next id on the target link. */
  function Target(r: Relay, c: nat): R.RouteKey {
    R.RouteKey(c, R.AllocatedId(Opens(r, c)))
  }

  /** An opener must use an odd id; nothing checks that the id is free. */
  ghost predicate Enabled(cfg: S.Config, r: Relay, a: Action) {
    match a
    case Connect(c) => c !in r.tasks && c !in r.egress
    case Lookup(from, target) => IsReading(r, from.connection) && from.stream % 2 == 1 && IsPresent(r, target)
    case OpenRoute(from, target) =>
      from.connection in r.tasks && r.tasks[from.connection] == Opening(from, target) && from.stream % 2 == 1
    case RefuseOpen(c) => c in r.tasks && r.tasks[c].Opening?
    case ReadData(c, f) => IsReading(r, c) && IsBulk(f) && (f.Data? || f.Window?)
    case ReadClose(c, f) => IsReading(r, c) && f.Close?
    case ReadCloseStream(c, _) => IsReading(r, c)
    case Queue(c) => IsQueueing(r, c) && CanSend(cfg, r, r.tasks[c].outbound, r.tasks[c].frame)
    case Abandon(c) => IsQueueing(r, c) && r.tasks[c].outbound in r.dead
    case QueueControl(c, f) => !f.IsBulkOrdered() && CanSend(cfg, r, c, f)
    case Die(c) => true
    case Leave(c, keys) => IsReading(r, c) && T.IsSnapshot(r.legs, c, keys)
    case Schedule(c, step) =>
      c in r.egress && !step.Send? && S.Enabled(cfg, r.egress[c], step) && (step.DropProducers? ==> !Held(r, c))
  }

  /** A frame found routable is recorded and handed to the peer's queue. */
  function Route(r: Relay, k: R.RouteKey, leg: R.RouteLeg, f: Frame): Relay {
    r.(tasks := r.tasks[k.connection := Queueing(k, leg.peer, leg.outbound, Remap(f, leg.peer.stream))],
       routed := r.routed[leg.peer := Routed(r, leg.peer) + [Read(k, f)]])
  }

  function AfterReadData(r: Relay, c: nat, f: Frame): Relay {
    var k := R.RouteKey(c, f.StreamId());
    match R.Look(r.legs, k)
    case OpenLeg(leg) => Route(r, k, leg, f)
    case _ => r
  }

  function AfterReadClose(r: Relay, c: nat, f: Frame): Relay {
    var k := R.RouteKey(c, f.StreamId());
    match R.CloseResult(r.legs, k)
    case Forward(leg) => Route(r, k, leg, f).(legs := R.Close(r.legs, k))
    case _ => r
  }

  function Sent(cfg: S.Config, r: Relay, c: nat, f: Frame): map<nat, S.State>
    requires CanSend(cfg, r, c, f)
  {
    r.egress[c := S.Apply(cfg, r.egress[c], S.Send(f))]
  }

  function AfterOpen(r: Relay, from: R.RouteKey, to: R.RouteKey): Relay {
    r.(legs := R.Open(r.legs, from, to, to.connection, from.connection),
       tasks := r.tasks[from.connection := Reading],
       opens := r.opens[to.connection := Opens(r, to.connection) + 1],
       uses := r.uses[from := Opened(r, from) + 1][to := Opened(r, to) + 1],
       source := r.source[from := to][to := from])
  }

  function Apply(cfg: S.Config, r: Relay, a: Action): Relay
    requires Enabled(cfg, r, a)
  {
    match a
    case Connect(c) => r.(tasks := r.tasks[c := Reading], egress := r.egress[c := S.INITIAL])
    case Lookup(from, target) => r.(tasks := r.tasks[from.connection := Opening(from, target)])
    case OpenRoute(from, target) => AfterOpen(r, from, Target(r, target))
    case RefuseOpen(c) => r.(tasks := r.tasks[c := Reading])
    case ReadData(c, f) => AfterReadData(r, c, f)
    case ReadClose(c, f) => AfterReadClose(r, c, f)
    case ReadCloseStream(c, stream) => r.(legs := R.Teardown(r.legs, R.RouteKey(c, stream)))
    case Queue(c) =>
      r.(tasks := r.tasks[c := Reading], egress := Sent(cfg, r, r.tasks[c].outbound, r.tasks[c].frame))
    case Abandon(c) => r.(tasks := r.tasks[c := Reading])
    case QueueControl(c, f) => r.(egress := Sent(cfg, r, c, f))
    case Die(c) => r.(dead := r.dead + {c})
    case Leave(c, keys) => r.(legs := R.TeardownAll(r.legs, keys), tasks := r.tasks[c := Left])
    case Schedule(c, step) => r.(egress := r.egress[c := S.Apply(cfg, r.egress[c], step)])
  }

  ghost predicate Legal(cfg: S.Config, r: Relay, acts: seq<Action>)
    decreases |acts|
  {
    acts == [] || (Enabled(cfg, r, acts[0]) && Legal(cfg, Apply(cfg, r, acts[0]), acts[1..]))
  }

  ghost function Exec(cfg: S.Config, r: Relay, acts: seq<Action>): Relay
    requires Legal(cfg, r, acts)
    decreases |acts|
  {
    if acts == [] then r else Exec(cfg, Apply(cfg, r, acts[0]), acts[1..])
  }

  // ---------------------------------------------------------------------
  // Legs and keys

  /** Every leg leads to a key that was opened, on that key's own link; and a key opened
      only once is led to by its one source alone. */
  predicate LegOk(r: Relay, k: R.RouteKey)
    requires k in r.legs
  {
    var dst := r.legs[k].peer;
    && Opened(r, dst) >= 1 && r.legs[k].outbound == dst.connection
    && (Opened(r, dst) == 1 ==> dst in r.source && r.source[dst] == k)
  }

  ghost predicate LegsOk(r: Relay) {
    && (forall k :: k in r.legs ==> LegOk(r, k))
    && (forall k :: Opened(r, k) >= 1 ==> k in r.source)
  }

  /** Closing and tearing down only flag or remove legs. */
  predicate Shrinks(after: R.Legs, legs: R.Legs) {
    forall k :: k in after ==>
      && k in legs && after[k].peer == legs[k].peer && after[k].outbound == legs[k].outbound
      && (legs[k].closed ==> after[k].closed)
  }

  /** The steps that touch existing legs. */
  function LegsNext(legs: R.Legs, a: Action): R.Legs {
    match a
    case ReadClose(c, f) => R.Close(legs, R.RouteKey(c, f.StreamId()))
    case ReadCloseStream(c, stream) => R.Teardown(legs, R.RouteKey(c, stream))
    case Leave(c, keys) => R.TeardownAll(legs, keys)
    case _ => legs
  }

  lemma LegsAre(cfg: S.Config, r: Relay, a: Action)
    requires Enabled(cfg, r, a) && !a.OpenRoute?
    ensures var t := Apply(cfg, r, a);
            && t.legs == LegsNext(r.legs, a) && t.opens == r.opens
            && t.uses == r.uses && t.source == r.source
  {
  }

  lemma LegsShrink(legs: R.Legs, a: Action)
    ensures Shrinks(LegsNext(legs, a), legs)
  {
    if a.Leave? {
      T.TeardownAllShrinks(legs, a.keys);
    }
  }

  lemma OpenKeepsLegs(r: Relay, from: R.RouteKey, to: R.RouteKey)
    requires LegsOk(r) && from != to
    ensures LegsOk(AfterOpen(r, from, to))
  {
    var t := AfterOpen(r, from, to);
    forall k | k in t.legs
      ensures LegOk(t, k)
    {
      if k != from && k != to {
        assert LegOk(r, k);
      }
    }
  }

  /** An opener's odd id is never one the relay allocates. */
  lemma EndsDiffer(r: Relay, from: R.RouteKey, target: nat)
    requires from.stream % 2 == 1
    ensures from != Target(r, target)
  {
    assert Target(r, target).stream % 2 == 0;
  }

  lemma ShrinkKeepsLegs(r: Relay, t: Relay)
    requires LegsOk(r) && Shrinks(t.legs, r.legs) && t.uses == r.uses && t.source == r.source
    ensures LegsOk(t)
  {
    forall k | k in t.legs
      ensures LegOk(t, k)
    {
      assert LegOk(r, k);
    }
  }

  lemma LegsStep(cfg: S.Config, r: Relay, a: Action)
    requires LegsOk(r) && Enabled(cfg, r, a)
    ensures LegsOk(Apply(cfg, r, a))
  {
    if a.OpenRoute? {
      EndsDiffer(r, a.from, a.target);
      OpenKeepsLegs(r, a.from, Target(r, a.target));
    } else {
      LegsAre(cfg, r, a);
      LegsShrink(r.legs, a);
      ShrinkKeepsLegs(r, Apply(cfg, r, a));
    }
  }

  // ---------------------------------------------------------------------
  // Tasks hold only frames of the leg they read

  predicate TaskOk(r: Relay, c: nat, t: Task) {
    t.Queueing? ==>
      && t.source.connection == c && Opened(r, t.dst) >= 1 && t.outbound == t.dst.connection
      && InLane(t.frame, Stream(t.dst.stream)) && IsBulk(t.frame)
      && (Opened(r, t.dst) == 1 ==> t.dst in r.source && r.source[t.dst] == t.source)
  }

  predicate TasksOk(r: Relay) {
    forall c :: c in r.tasks ==> TaskOk(r, c, r.tasks[c])
  }

  lemma RouteKeepsTasks(r: Relay, k: R.RouteKey, f: Frame, legs: R.Legs)
    requires LegsOk(r) && TasksOk(r) && k in r.legs && IsBulk(f)
    ensures TasksOk(Route(r, k, r.legs[k], f).(legs := legs))
  {
    assert LegOk(r, k);
    assert TaskOk(r, k.connection, Queueing(k, r.legs[k].peer, r.legs[k].outbound, Remap(f, r.legs[k].peer.stream)));
  }

  lemma OpenKeepsTasks(r: Relay, from: R.RouteKey, to: R.RouteKey)
    requires TasksOk(r)
    ensures TasksOk(AfterOpen(r, from, to))
  {
    var t := AfterOpen(r, from, to);
    forall c | c in t.tasks
      ensures TaskOk(t, c, t.tasks[c])
    {
      assert c in r.tasks ==> TaskOk(r, c, r.tasks[c]);
    }
  }

  lemma OthersKeepTasks(cfg: S.Config, r: Relay, a: Action)
    requires TasksOk(r) && Enabled(cfg, r, a) && !a.ReadData? && !a.ReadClose? && !a.OpenRoute?
    ensures TasksOk(Apply(cfg, r, a))
  {
    var t := Apply(cfg, r, a);
    LegsAre(cfg, r, a);
    forall c | c in t.tasks
      ensures TaskOk(t, c, t.tasks[c])
    {
      assert c in r.tasks ==> TaskOk(r, c, r.tasks[c]);
    }
  }

  lemma TasksStep(cfg: S.Config, r: Relay, a: Action)
    requires LegsOk(r) && TasksOk(r) && Enabled(cfg, r, a)
    ensures TasksOk(Apply(cfg, r, a))
  {
    match a
    case ReadData(c, f) =>
      var k := R.RouteKey(c, f.StreamId());
      if R.Look(r.legs, k).OpenLeg? {
        RouteKeepsTasks(r, k, f, r.legs);
      }
    case ReadClose(c, f) =>
      var k := R.RouteKey(c, f.StreamId());
      if R.CloseResult(r.legs, k).Forward? {
        RouteKeepsTasks(r, k, f, R.Close(r.legs, k));
      }
    case OpenRoute(from, target) => OpenKeepsTasks(r, from, Target(r, target));
    case _ => OthersKeepTasks(cfg, r, a);
  }

  // ---------------------------------------------------------------------
  // One source, and nothing after its close

  predicate CloseOnlyLast(q: seq<Frame>) {
    forall i :: 0 <= i < |q| - 1 ==> !q[i].Close?
  }

  predicate NoClose(q: seq<Read>) {
    forall i :: 0 <= i < |q| ==> !q[i].frame.Close?
  }

  predicate OneSource(q: seq<Read>, source: R.RouteKey) {
    forall i :: 0 <= i < |q| ==> q[i].from == source
  }

  /** The frames routed to a key that was opened at most once. */
  predicate RoutedOk(r: Relay, dst: R.RouteKey) {
    var q := Routed(r, dst);
    && (Opened(r, dst) == 0 ==> q == [])
    && (Opened(r, dst) == 1 && dst in r.source ==>
          var src := r.source[dst];
          && OneSource(q, src) && CloseOnlyLast(RemapAll(q, dst.stream))
          && (src in r.legs && r.legs[src].peer == dst && !r.legs[src].closed ==> NoClose(q)))
  }

  ghost predicate AllRoutedOk(r: Relay) {
    forall dst :: RoutedOk(r, dst)
  }

  lemma OpenKeepsRouted(r: Relay, from: R.RouteKey, to: R.RouteKey, dst: R.RouteKey)
    requires LegsOk(r) && RoutedOk(r, dst) && from != to
    ensures RoutedOk(AfterOpen(r, from, to), dst)
  {
    if dst in r.source && r.source[dst] in r.legs {
      assert LegOk(r, r.source[dst]);
    }
  }

  lemma RouteKeepsRouted(r: Relay, k: R.RouteKey, f: Frame, legs: R.Legs, dst: R.RouteKey)
    requires LegsOk(r) && RoutedOk(r, dst) && k in r.legs && !r.legs[k].closed && Shrinks(legs, r.legs)
    requires f.Close? && k in legs ==> legs[k].closed
    ensures RoutedOk(Route(r, k, r.legs[k], f).(legs := legs), dst)
  {
    assert LegOk(r, k);
  }

  lemma CloseFlags(legs: R.Legs, k: R.RouteKey)
    ensures Shrinks(R.Close(legs, k), legs) && (k in R.Close(legs, k) ==> R.Close(legs, k)[k].closed)
  {
  }

  lemma OthersKeepRouted(cfg: S.Config, r: Relay, a: Action, dst: R.RouteKey)
    requires Enabled(cfg, r, a) && !a.ReadData? && !a.ReadClose? && !a.OpenRoute? && RoutedOk(r, dst)
    ensures RoutedOk(Apply(cfg, r, a), dst)
  {
    LegsAre(cfg, r, a);
    LegsShrink(r.legs, a);
    OthersKeepRecord(cfg, r, a);
  }

  lemma OthersKeepRecord(cfg: S.Config, r: Relay, a: Action)
    requires Enabled(cfg, r, a) && !a.ReadData? && !a.ReadClose?
    ensures Apply(cfg, r, a).routed == r.routed
  {
  }

  lemma RoutedStep(cfg: S.Config, r: Relay, a: Action, dst: R.RouteKey)
    requires LegsOk(r) && RoutedOk(r, dst) && Enabled(cfg, r, a)
    ensures RoutedOk(Apply(cfg, r, a), dst)
  {
    match a
    case OpenRoute(from, target) =>
      EndsDiffer(r, from, target);
      OpenKeepsRouted(r, from, Target(r, target), dst);
    case ReadData(c, f) =>
      var k := R.RouteKey(c, f.StreamId());
      if R.Look(r.legs, k).OpenLeg? {
        RouteKeepsRouted(r, k, f, r.legs, dst);
      }
    case ReadClose(c, f) =>
      var k := R.RouteKey(c, f.StreamId());
      if R.CloseResult(r.legs, k).Forward? {
        CloseFlags(r.legs, k);
        RouteKeepsRouted(r, k, f, R.Close(r.legs, k), dst);
      }
    case _ => OthersKeepRouted(cfg, r, a, dst);
  }

  // ---------------------------------------------------------------------
  // What arrived at a link's scheduler under an id is what was routed to it

  function Arrived(egress: map<nat, S.State>, dst: R.RouteKey): seq<Frame> {
    if dst.connection in egress then Select(egress[dst.connection].ingress.accepted, Stream(dst.stream)) else []
  }

  predicate Holds(tasks: map<nat, Task>, c: nat, dst: R.RouteKey) {
    c in tasks && tasks[c].Queueing? && tasks[c].dst == dst
  }

  function InHand(tasks: map<nat, Task>, src: R.RouteKey, dst: R.RouteKey): seq<Frame> {
    if Holds(tasks, src.connection, dst) then [tasks[src.connection].frame] else []
  }

  predicate Faithful(r: Relay, dst: R.RouteKey) {
    var arrived := Arrived(r.egress, dst);
    && (Opened(r, dst) == 0 ==> arrived == [])
    && (Opened(r, dst) == 1 && dst in r.source ==>
          var sent := RemapAll(Routed(r, dst), dst.stream);
          if dst.connection in r.dead then arrived <= sent
          else arrived + InHand(r.tasks, r.source[dst], dst) == sent)
  }

  lemma RemapSnoc(q: seq<Read>, x: Read, id: nat)
    ensures RemapAll(q + [x], id) == RemapAll(q, id) + [Remap(x.frame, id)]
  {
  }

  lemma RouteFaithful(r: Relay, k: R.RouteKey, f: Frame, legs: R.Legs, dst: R.RouteKey)
    requires LegsOk(r) && k in r.legs && IsReading(r, k.connection) && Faithful(r, dst)
    ensures Faithful(Route(r, k, r.legs[k], f).(legs := legs), dst)
  {
    assert LegOk(r, k);
    RemapSnoc(Routed(r, dst), Read(k, f), dst.stream);
  }

  lemma SendArrives(cfg: S.Config, r: Relay, c: nat, f: Frame, dst: R.RouteKey)
    requires CanSend(cfg, r, c, f)
    ensures Arrived(Sent(cfg, r, c, f), dst)
         == Arrived(r.egress, dst) + if dst.connection == c && InLane(f, Stream(dst.stream)) then [f] else []
  {
    if dst.connection == c {
      SelectConcat(r.egress[c].ingress.accepted, [f], Stream(dst.stream));
      SelectOne(f, Stream(dst.stream));
    }
  }

  lemma QueueFaithful(cfg: S.Config, r: Relay, c: nat, dst: R.RouteKey)
    requires TasksOk(r) && Enabled(cfg, r, Queue(c)) && Faithful(r, dst)
    ensures Faithful(Apply(cfg, r, Queue(c)), dst)
  {
    var task := r.tasks[c];
    assert TaskOk(r, c, task);
    SendArrives(cfg, r, task.outbound, task.frame, dst);
  }

  lemma OpenFaithful(r: Relay, from: R.RouteKey, to: R.RouteKey, dst: R.RouteKey)
    requires TasksOk(r) && RoutedOk(r, dst) && Faithful(r, dst) && LegsOk(r)
    requires from != to && from.connection in r.tasks && !r.tasks[from.connection].Queueing?
    ensures Faithful(AfterOpen(r, from, to), dst)
  {
    var t := AfterOpen(r, from, to);
    if Opened(t, dst) == 1 {
      var src := t.source[dst];
      assert src.connection in r.tasks ==> TaskOk(r, src.connection, r.tasks[src.connection]);
    }
  }

  lemma ScheduleFaithful(cfg: S.Config, r: Relay, c: nat, step: S.Action, dst: R.RouteKey)
    requires Enabled(cfg, r, Schedule(c, step)) && Faithful(r, dst)
    ensures Faithful(Apply(cfg, r, Schedule(c, step)), dst)
  {
    assert S.Apply(cfg, r.egress[c], step).ingress.accepted == r.egress[c].ingress.accepted;
    assert Arrived(Apply(cfg, r, Schedule(c, step)).egress, dst) == Arrived(r.egress, dst);
  }

  lemma LifecycleFaithful(cfg: S.Config, r: Relay, a: Action, dst: R.RouteKey)
    requires TasksOk(r) && LegsOk(r) && Enabled(cfg, r, a) && Faithful(r, dst)
    requires !a.OpenRoute? && !a.ReadData? && !a.ReadClose? && !a.Queue? && !a.QueueControl? && !a.Schedule?
    ensures Faithful(Apply(cfg, r, a), dst)
  {
    var t := Apply(cfg, r, a);
    LegsAre(cfg, r, a);
    OthersKeepRecord(cfg, r, a);
    assert Arrived(t.egress, dst) == Arrived(r.egress, dst);
    if dst in r.source && !a.Abandon? {
      assert InHand(t.tasks, r.source[dst], dst) == InHand(r.tasks, r.source[dst], dst);
    }
  }

  lemma FaithfulStep(cfg: S.Config, r: Relay, a: Action, dst: R.RouteKey)
    requires LegsOk(r) && TasksOk(r) && RoutedOk(r, dst) && Enabled(cfg, r, a) && Faithful(r, dst)
    ensures Faithful(Apply(cfg, r, a), dst)
  {
    match a
    case OpenRoute(from, target) =>
      EndsDiffer(r, from, target);
      OpenFaithful(r, from, Target(r, target), dst);
    case ReadData(c, f) =>
      var k := R.RouteKey(c, f.StreamId());
      if R.Look(r.legs, k).OpenLeg? {
        RouteFaithful(r, k, f, r.legs, dst);
      }
    case ReadClose(c, f) =>
      var k := R.RouteKey(c, f.StreamId());
      if R.CloseResult(r.legs, k).Forward? {
        RouteFaithful(r, k, f, R.Close(r.legs, k), dst);
      }
    case Queue(c) => QueueFaithful(cfg, r, c, dst);
    case QueueControl(c, f) => SendArrives(cfg, r, c, f, dst);
    case Schedule(c, step) => ScheduleFaithful(cfg, r, c, step, dst);
    case _ => LifecycleFaithful(cfg, r, a, dst);
  }

  // ---------------------------------------------------------------------
  // Every run

  ghost predicate EgressSound(cfg: S.Config, egress: map<nat, S.State>) {
    forall c :: c in egress ==> O.Invariant(cfg, egress[c])
  }

  lemma EgressStep(cfg: S.Config, r: Relay, a: Action)
    requires S.ValidConfig(cfg) && EgressSound(cfg, r.egress) && Enabled(cfg, r, a)
    ensures EgressSound(cfg, Apply(cfg, r, a).egress)
  {
    match a
    case Connect(_) => O.InitialInvariant(cfg);
    case Queue(c) => O.InvariantStep(cfg, r.egress[r.tasks[c].outbound], S.Send(r.tasks[c].frame));
    case QueueControl(c, f) => O.InvariantStep(cfg, r.egress[c], S.Send(f));
    case Schedule(c, step) => O.InvariantStep(cfg, r.egress[c], step);
    case _ =>
  }

  ghost predicate Invariant(cfg: S.Config, r: Relay) {
    && LegsOk(r) && TasksOk(r) && AllRoutedOk(r) && EgressSound(cfg, r.egress)
    && forall dst :: Faithful(r, dst)
  }

  lemma InvariantStep(cfg: S.Config, r: Relay, a: Action)
    requires S.ValidConfig(cfg) && Invariant(cfg, r) && Enabled(cfg, r, a)
    ensures Invariant(cfg, Apply(cfg, r, a))
  {
    LegsStep(cfg, r, a);
    TasksStep(cfg, r, a);
    EgressStep(cfg, r, a);
    forall dst
      ensures RoutedOk(Apply(cfg, r, a), dst) && Faithful(Apply(cfg, r, a), dst)
    {
      assert RoutedOk(r, dst);
      RoutedStep(cfg, r, a, dst);
      FaithfulStep(cfg, r, a, dst);
    }
  }

  lemma {:induction false} InvariantRun(cfg: S.Config, r: Relay, acts: seq<Action>)
    requires S.ValidConfig(cfg) && Invariant(cfg, r) && Legal(cfg, r, acts)
    ensures Invariant(cfg, Exec(cfg, r, acts))
    decreases |acts|
  {
    if acts == [] {
    } else {
      InvariantStep(cfg, r, acts[0]);
      InvariantRun(cfg, Apply(cfg, r, acts[0]), acts[1..]);
    }
  }

  /** End to end, over every run, for every stream id that was opened at most once,
      whatever happens to all others: what the link's socket took under it is a prefix
      of the frames routed to it, remapped and in order; all of them were read under
      one key; nothing follows a close; and an id never opened never appears. */
  lemma EndToEnd(cfg: S.Config, acts: seq<Action>, dst: R.RouteKey)
    requires S.ValidConfig(cfg) && Legal(cfg, EMPTY, acts)
    requires dst.connection in Exec(cfg, EMPTY, acts).egress && Opened(Exec(cfg, EMPTY, acts), dst) <= 1
    ensures var r := Exec(cfg, EMPTY, acts);
            var wire := Select(r.egress[dst.connection].writer.wire, Stream(dst.stream));
            && wire <= RemapAll(Routed(r, dst), dst.stream) && DeliversFirst(wire, Routed(r, dst), dst.stream)
            && (Opened(r, dst) == 1 ==> dst in r.source && OneSource(Routed(r, dst), r.source[dst]))
            && (Opened(r, dst) == 0 ==> wire == [])
            && CloseOnlyLast(wire)
  {
    InvariantRun(cfg, EMPTY, acts);
    var r := Exec(cfg, EMPTY, acts);
    assert Faithful(r, dst) && RoutedOk(r, dst);
    assert O.Invariant(cfg, r.egress[dst.connection]);
    assert O.Conserved(r.egress[dst.connection], Stream(dst.stream));
    PrefixDelivers(Select(r.egress[dst.connection].writer.wire, Stream(dst.stream)), Routed(r, dst), dst.stream);
  }

  lemma PrefixDelivers(wire: seq<Frame>, q: seq<Read>, id: nat)
    requires wire <= RemapAll(q, id) && forall f :: f in wire ==> InLane(f, Stream(id))
    ensures DeliversFirst(wire, q, id)
  {
    forall i | 0 <= i < |wire|
      ensures Delivers(wire[i], q[i].frame, id)
    {
      assert wire[i] in wire && wire[i] == RemapAll(q, id)[i];
    }
  }

  /** The frame a step reads for `dst`: Data, Window or Close under a key whose leg is
      there, has not closed, and leads to `dst`. */
  function ReadFor(r: Relay, a: Action, dst: R.RouteKey): seq<Read> {
    if !a.ReadData? && !a.ReadClose? then []
    else
      var k := R.RouteKey(a.c, a.frame.StreamId());
      if k in r.legs && !r.legs[k].closed && r.legs[k].peer == dst then [Read(k, a.frame)] else []
  }

  ghost function ReadsFor(cfg: S.Config, r: Relay, acts: seq<Action>, dst: R.RouteKey): seq<Read>
    requires Legal(cfg, r, acts)
    decreases |acts|
  {
    if acts == [] then [] else ReadFor(r, acts[0], dst) + ReadsFor(cfg, Apply(cfg, r, acts[0]), acts[1..], dst)
  }

  lemma RoutedStepReads(cfg: S.Config, r: Relay, a: Action, dst: R.RouteKey)
    requires Enabled(cfg, r, a)
    ensures Routed(Apply(cfg, r, a), dst) == Routed(r, dst) + ReadFor(r, a, dst)
  {
    match a
    case ReadData(c, f) =>
      assert Apply(cfg, r, a) == AfterReadData(r, c, f);
    case ReadClose(c, f) =>
      assert Apply(cfg, r, a) == AfterReadClose(r, c, f);
    case _ => OthersKeepRecord(cfg, r, a);
  }

  /** What counts as routed to a stream is what the links read for it, in that order. */
  lemma {:induction false} RoutedIsRead(cfg: S.Config, r: Relay, acts: seq<Action>, dst: R.RouteKey)
    requires Legal(cfg, r, acts)
    ensures Routed(Exec(cfg, r, acts), dst) == Routed(r, dst) + ReadsFor(cfg, r, acts, dst)
    decreases |acts|
  {
    if acts == [] {
    } else {
      var next := Apply(cfg, r, acts[0]);
      RoutedStepReads(cfg, r, acts[0], dst);
      RoutedIsRead(cfg, next, acts[1..], dst);
      Q.Assoc(Routed(r, dst), ReadFor(r, acts[0], dst), ReadsFor(cfg, next, acts[1..], dst));
    }
  }

  // ---------------------------------------------------------------------
  // Ids the relay allocates

  function OpensTo(acts: seq<Action>, c: nat): nat {
    if acts == [] then 0 else (if acts[0].OpenRoute? && acts[0].target == c then 1 else 0) + OpensTo(acts[1..], c)
  }

  lemma OpensStep(cfg: S.Config, r: Relay, a: Action, c: nat)
    requires Enabled(cfg, r, a)
    ensures Opens(Apply(cfg, r, a), c) == Opens(r, c) + if a.OpenRoute? && a.target == c then 1 else 0
  {
    if !a.OpenRoute? {
      LegsAre(cfg, r, a);
    }
  }

  lemma {:induction false} OpensAreCounted(cfg: S.Config, r: Relay, acts: seq<Action>, c: nat)
    requires Legal(cfg, r, acts)
    ensures Opens(Exec(cfg, r, acts), c) == Opens(r, c) + OpensTo(acts, c)
    decreases |acts|
  {
    if acts == [] {
    } else {
      OpensStep(cfg, r, acts[0], c);
      OpensAreCounted(cfg, Apply(cfg, r, acts[0]), acts[1..], c);
    }
  }

  /** Over every run, the route opened to link `c` after `k` others leads to its stream
      2 + 2k, in 32 bits, and that stream leads back. */
  lemma OpenTakesNextId(cfg: S.Config, acts: seq<Action>, from: R.RouteKey, c: nat)
    requires Legal(cfg, EMPTY, acts) && Enabled(cfg, Exec(cfg, EMPTY, acts), OpenRoute(from, c))
    ensures var to := R.RouteKey(c, (2 + 2 * OpensTo(acts, c)) % 0x1_0000_0000);
            var legs := Apply(cfg, Exec(cfg, EMPTY, acts), OpenRoute(from, c)).legs;
            && from in legs && legs[from] == R.RouteLeg(to, c, false)
            && to in legs && legs[to] == R.RouteLeg(from, from.connection, false)
  {
    OpensAreCounted(cfg, EMPTY, acts, c);
    EndsDiffer(Exec(cfg, EMPTY, acts), from, c);
  }

  /** An even key is opened only by its link's allocator, once per id. */
  predicate AllocatedOnce(r: Relay, k: R.RouteKey) {
    k.stream % 2 == 0 && Opens(r, k.connection) <= R.DISTINCT_IDS ==>
      && Opened(r, k) <= 1
      && (Opened(r, k) == 1 ==> exists i: nat :: i < Opens(r, k.connection) && k.stream == R.AllocatedId(i))
  }

  lemma OpenAllocatesOnce(r: Relay, from: R.RouteKey, target: nat, k: R.RouteKey)
    requires AllocatedOnce(r, k) && from.stream % 2 == 1
    ensures AllocatedOnce(AfterOpen(r, from, Target(r, target)), k)
  {
    var t := AfterOpen(r, from, Target(r, target));
    if k.stream % 2 == 0 && Opens(t, k.connection) <= R.DISTINCT_IDS {
      forall i: nat | i < Opens(r, target)
        ensures R.AllocatedId(i) != R.AllocatedId(Opens(r, target)) || Opens(r, target) >= R.DISTINCT_IDS
      {
        R.AllocatedIdsCollideExactly(i, Opens(r, target));
      }
      if k == Target(r, target) {
        assert Opens(r, target) < Opens(t, target) && k.stream == R.AllocatedId(Opens(r, target));
      } else if Opened(r, k) == 1 {
        var i: nat :| i < Opens(r, k.connection) && k.stream == R.AllocatedId(i);
        assert i < Opens(t, k.connection);
      }
    }
  }

  lemma {:induction false} AllocatedOnceRun(cfg: S.Config, r: Relay, acts: seq<Action>, k: R.RouteKey)
    requires Legal(cfg, r, acts) && AllocatedOnce(r, k)
    ensures AllocatedOnce(Exec(cfg, r, acts), k)
    decreases |acts|
  {
    if acts == [] {
    } else {
      var next := Apply(cfg, r, acts[0]);
      if acts[0].OpenRoute? {
        OpenAllocatesOnce(r, acts[0].from, acts[0].target, k);
      } else {
        LegsAre(cfg, r, acts[0]);
        SameAllocated(r, next, k);
      }
      AllocatedOnceRun(cfg, next, acts[1..], k);
    }
  }

  lemma SameAllocated(r: Relay, t: Relay, k: R.RouteKey)
    requires AllocatedOnce(r, k) && t.uses == r.uses && t.opens == r.opens
    ensures AllocatedOnce(t, k)
  {
    if k.stream % 2 == 0 && Opens(t, k.connection) <= R.DISTINCT_IDS && Opened(t, k) == 1 {
      var i: nat :| i < Opens(r, k.connection) && k.stream == R.AllocatedId(i);
      assert i < Opens(t, k.connection);
    }
  }

  /** So every id the relay allocates on a link is opened at most once while the link
      has had no more than 2^31 of them: `EndToEnd` holds for it whatever openers do
      with their own ids. */
  lemma RelayIdsAreOpenedOnce(cfg: S.Config, acts: seq<Action>, k: R.RouteKey)
    requires Legal(cfg, EMPTY, acts) && k.stream % 2 == 0 && Opens(Exec(cfg, EMPTY, acts), k.connection) <= R.DISTINCT_IDS
    ensures Opened(Exec(cfg, EMPTY, acts), k) <= 1
  {
    AllocatedOnceRun(cfg, EMPTY, acts, k);
  }
}
