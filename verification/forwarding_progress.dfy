/** Progress of the whole relay: a link task that waits for room on another link's queue
    waits only for that link's scheduler (src/infra/relay_link.rs), so links never block
    each other for good. */
module ForwardingProgress {
  import opened Frames
  import opened Forwarding
  import R = Routing
  import S = Scheduler
  import W = SchedulerWakeup
  import L = SchedulerFlush

  // ---------------------------------------------------------------------
  // Every scheduler is sound

  ghost predicate AllSound(cfg: S.Config, egress: map<nat, S.State>) {
    forall c :: c in egress ==> W.Sound(cfg, egress[c])
  }

  lemma AllSoundStep(cfg: S.Config, r: Relay, a: Action)
    requires S.ValidConfig(cfg) && AllSound(cfg, r.egress) && Enabled(cfg, r, a)
    ensures AllSound(cfg, Apply(cfg, r, a).egress)
  {
    match a
    case Connect(_) => W.ReachableSound(cfg, []);
    case Queue(c) => W.SoundStep(cfg, r.egress[r.tasks[c].outbound], S.Send(r.tasks[c].frame));
    case QueueControl(c, f) => W.SoundStep(cfg, r.egress[c], S.Send(f));
    case Schedule(c, step) => W.SoundStep(cfg, r.egress[c], step);
    case _ =>
  }

  // ---------------------------------------------------------------------
  // A queue with a sender about is open

  predicate IsOpen(r: Relay, c: nat) {
    c in r.egress && !r.egress[c].ingress.producersGone
  }

  ghost predicate SendersLive(r: Relay) {
    forall c :: Held(r, c) ==> IsOpen(r, c)
  }

  /** Steps that make nobody a holder of a sender who was not one before. */
  lemma HeldBefore(cfg: S.Config, r: Relay, a: Action, c: nat)
    requires Enabled(cfg, r, a) && !a.OpenRoute? && Held(Apply(cfg, r, a), c) && a != Connect(c)
    ensures Held(r, c)
  {
    var t := Apply(cfg, r, a);
    LegsAre(cfg, r, a);
    LegsShrink(r.legs, a);
    if exists k :: k in t.legs && t.legs[k].outbound == c {
      var k :| k in t.legs && t.legs[k].outbound == c;
      assert r.legs[k].outbound == c;
    } else if !IsPresent(t, c) {
      var x :| x in t.tasks && Refers(t.tasks[x], c);
      ReferredBefore(cfg, r, a, x, c);
    } else {
      PresentBefore(cfg, r, a, c);
    }
  }

  lemma PresentBefore(cfg: S.Config, r: Relay, a: Action, c: nat)
    requires Enabled(cfg, r, a) && IsPresent(Apply(cfg, r, a), c) && a != Connect(c)
    ensures IsPresent(r, c)
  {
  }

  lemma ReferredBefore(cfg: S.Config, r: Relay, a: Action, x: nat, c: nat)
    requires Enabled(cfg, r, a) && x in Apply(cfg, r, a).tasks && Refers(Apply(cfg, r, a).tasks[x], c)
    ensures Held(r, c)
  {
    match a
    case ReadData(d, f) =>
      var k := R.RouteKey(d, f.StreamId());
      assert R.Look(r.legs, k).OpenLeg? ==> k in r.legs;
      assert x in r.tasks;
    case ReadClose(d, f) =>
      var k := R.RouteKey(d, f.StreamId());
      assert R.CloseResult(r.legs, k).Forward? ==> k in r.legs;
      assert x in r.tasks;
    case _ =>
  }

  lemma OpenHeldBefore(r: Relay, from: R.RouteKey, to: R.RouteKey, c: nat)
    requires from.connection in r.tasks && r.tasks[from.connection] == Opening(from, to.connection)
    requires Held(AfterOpen(r, from, to), c)
    ensures Held(r, c)
  {
    var t := AfterOpen(r, from, to);
    assert Refers(r.tasks[from.connection], to.connection);
    if exists k :: k in t.legs && t.legs[k].outbound == c {
      var k :| k in t.legs && t.legs[k].outbound == c;
      assert k == from || k == to || (k in r.legs && r.legs[k].outbound == c);
    } else if !IsPresent(t, c) {
      var x :| x in t.tasks && Refers(t.tasks[x], c);
      assert Refers(r.tasks[x], c);
    }
  }

  lemma StaysOpen(cfg: S.Config, r: Relay, a: Action, c: nat)
    requires Enabled(cfg, r, a) && IsOpen(r, c) && a != Schedule(c, S.DropProducers)
    ensures IsOpen(Apply(cfg, r, a), c)
  {
  }

  lemma SendersLiveStep(cfg: S.Config, r: Relay, a: Action)
    requires SendersLive(r) && Enabled(cfg, r, a)
    ensures SendersLive(Apply(cfg, r, a))
  {
    forall c | Held(Apply(cfg, r, a), c)
      ensures IsOpen(Apply(cfg, r, a), c)
    {
      if a != Connect(c) {
        if a.OpenRoute? {
          OpenHeldBefore(r, a.from, Target(r, a.target), c);
        } else {
          HeldBefore(cfg, r, a, c);
        }
        StaysOpen(cfg, r, a, c);
      }
    }
  }

  // ---------------------------------------------------------------------
  // Every run

  ghost predicate Running(cfg: S.Config, r: Relay) {
    Invariant(cfg, r) && AllSound(cfg, r.egress) && SendersLive(r)
  }

  lemma RunningStep(cfg: S.Config, r: Relay, a: Action)
    requires S.ValidConfig(cfg) && Running(cfg, r) && Enabled(cfg, r, a)
    ensures Running(cfg, Apply(cfg, r, a))
  {
    InvariantStep(cfg, r, a);
    AllSoundStep(cfg, r, a);
    SendersLiveStep(cfg, r, a);
  }

  lemma {:induction false} RunningRun(cfg: S.Config, r: Relay, acts: seq<Action>)
    requires S.ValidConfig(cfg) && Running(cfg, r) && Legal(cfg, r, acts)
    ensures Running(cfg, Exec(cfg, r, acts))
    decreases |acts|
  {
    if acts == [] {
    } else {
      RunningStep(cfg, r, acts[0]);
      RunningRun(cfg, Apply(cfg, r, acts[0]), acts[1..]);
    }
  }

  lemma ReachableRunning(cfg: S.Config, acts: seq<Action>)
    requires S.ValidConfig(cfg) && Legal(cfg, EMPTY, acts)
    ensures Running(cfg, Exec(cfg, EMPTY, acts))
  {
    RunningRun(cfg, EMPTY, acts);
  }

  /** A task queues on a link whose queue is open, unless it is gone for good. */
  lemma QueuesOnOpen(r: Relay, c: nat)
    requires SendersLive(r) && IsQueueing(r, c)
    ensures IsOpen(r, r.tasks[c].outbound)
  {
    assert Refers(r.tasks[c], r.tasks[c].outbound) && Held(r, r.tasks[c].outbound);
  }

  lemma RoomAtRest(cfg: S.Config, s: S.State, f: Frame)
    requires S.ValidConfig(cfg) && W.Sound(cfg, s) && L.AtRest(cfg, s) && !s.ingress.producersGone && IsBulk(f)
    ensures S.Enabled(cfg, s, S.Send(f))
  {
    L.RestMeansDelivered(cfg, s);
  }

  lemma RestFreesTask(cfg: S.Config, r: Relay, c: nat)
    requires S.ValidConfig(cfg) && Running(cfg, r) && IsQueueing(r, c)
    ensures var y := r.tasks[c].outbound;
            y in r.egress && (L.AtRest(cfg, r.egress[y]) ==> Enabled(cfg, r, Queue(c)) || Enabled(cfg, r, Abandon(c)))
  {
    var y := r.tasks[c].outbound;
    QueuesOnOpen(r, c);
    assert TaskOk(r, c, r.tasks[c]);
    if L.AtRest(cfg, r.egress[y]) {
      RoomAtRest(cfg, r.egress[y], r.tasks[c].frame);
    }
  }

  /** Only scheduler steps of one link. */
  predicate OnlySchedules(acts: seq<Action>, c: nat) {
    forall i :: 0 <= i < |acts| ==> acts[i].Schedule? && acts[i].c == c && S.IsInternal(acts[i].step)
  }

  function Steps(acts: seq<Action>): seq<S.Action>
    requires forall i :: 0 <= i < |acts| ==> acts[i].Schedule?
  {
    seq(|acts|, i requires 0 <= i < |acts| => acts[i].step)
  }

  lemma {:induction false} SchedulesOne(cfg: S.Config, r: Relay, acts: seq<Action>, c: nat)
    requires Legal(cfg, r, acts) && OnlySchedules(acts, c) && c in r.egress
    ensures S.Legal(cfg, r.egress[c], Steps(acts)) && L.AllInternal(Steps(acts))
    ensures var t := Exec(cfg, r, acts); c in t.egress && t.egress[c] == S.Exec(cfg, r.egress[c], Steps(acts))
    ensures Exec(cfg, r, acts).tasks == r.tasks && Exec(cfg, r, acts).dead == r.dead
    decreases |acts|
  {
    if acts == [] {
    } else {
      SchedulesOne(cfg, Apply(cfg, r, acts[0]), acts[1..], c);
      assert Steps(acts)[1..] == Steps(acts[1..]);
    }
  }

  /** In every reachable state in which some link's task holds a frame for another link:
      that link's scheduler can only take a bounded number of steps on its own, and where
      it cannot take another one the frame can be queued, or given up because the link's
      queue is gone. */
  lemma QueueingNeverStuck(cfg: S.Config, before: seq<Action>, acts: seq<Action>, c: nat)
    requires S.ValidConfig(cfg) && Legal(cfg, EMPTY, before) && IsQueueing(Exec(cfg, EMPTY, before), c)
    requires Legal(cfg, Exec(cfg, EMPTY, before), acts)
    requires OnlySchedules(acts, Exec(cfg, EMPTY, before).tasks[c].outbound)
    ensures var r := Exec(cfg, EMPTY, before); var t := Exec(cfg, r, acts);
            var y := r.tasks[c].outbound;
            && y in r.egress && |acts| <= L.Measure(r.egress[y])
            && y in t.egress
            && (L.AtRest(cfg, t.egress[y]) ==> Enabled(cfg, t, Queue(c)) || Enabled(cfg, t, Abandon(c)))
  {
    var r := Exec(cfg, EMPTY, before);
    ReachableRunning(cfg, before);
    QueuesOnOpen(r, c);
    BurstOfOne(cfg, r, acts, r.tasks[c].outbound);
    RestFreesTask(cfg, Exec(cfg, r, acts), c);
  }

  lemma BurstOfOne(cfg: S.Config, r: Relay, acts: seq<Action>, y: nat)
    requires S.ValidConfig(cfg) && Running(cfg, r) && y in r.egress && Legal(cfg, r, acts) && OnlySchedules(acts, y)
    ensures |acts| <= L.Measure(r.egress[y])
    ensures Running(cfg, Exec(cfg, r, acts)) && Exec(cfg, r, acts).tasks == r.tasks
  {
    SchedulesOne(cfg, r, acts, y);
    L.BurstIsBounded(cfg, r.egress[y], Steps(acts));
    RunningRun(cfg, r, acts);
  }
}
