/** Buckets of ended streams (src/infra/relay_scheduler.rs): one that stays empty is
    reaped with its eighth idle pass, and its credit goes with it. */
module SchedulerIdle {
  import opened Frames
  import opened Scheduler
  import opened SchedulerAccounting
  import opened SchedulerOrder

  /** The step enqueues a frame for stream `k`, or tries to. */
  predicate Feeds(s: State, a: Action, k: nat) {
    a == Consume(Enqueue) && s.consumer.at.Enqueuing? && s.consumer.at.frame.StreamId() == k
  }

  /** Nothing is enqueued for stream `k` in this run. */
  predicate Unfed(cfg: Config, s: State, acts: seq<Action>, k: nat)
    requires Legal(cfg, s, acts)
    decreases |acts|
  {
    acts == [] || (!Feeds(s, acts[0], k) && Unfed(cfg, Apply(cfg, s, acts[0]), acts[1..], k))
  }

  /** The bucket of `k` has been empty for this many passes, with this credit; after eight
      it is gone. */
  predicate IdleFor(s: State, k: nat, passes: nat, deficit: int) {
    && (k in s.shared.buckets <==> passes < 8)
    && (passes < 8 ==> s.shared.buckets[k] == Bucket([], 0, deficit, passes))
  }

  lemma PassAges(cfg: Config, s: State, order: seq<nat>, k: nat, passes: nat, deficit: int)
    requires WriterEnabled(s, RoundRobin(order)) && IdleFor(s, k, passes, deficit)
    ensures IdleFor(AfterPass(cfg, s, order), k, passes + 1, deficit)
  {
  }

  lemma IdleStep(cfg: Config, s: State, a: Action, k: nat, passes: nat, deficit: int)
    requires Enabled(cfg, s, a) && !Feeds(s, a, k) && IdleFor(s, k, passes, deficit)
    ensures var t := Apply(cfg, s, a);
            && s.writer.passes <= t.writer.passes
            && IdleFor(t, k, passes + (t.writer.passes - s.writer.passes), deficit)
  {
    if a.Write? && a.w.RoundRobin? {
      PassAges(cfg, s, a.w.order, k, passes, deficit);
    }
  }

  lemma {:induction false} IdleRun(cfg: Config, s: State, acts: seq<Action>, k: nat, passes: nat, deficit: int)
    requires Legal(cfg, s, acts) && Unfed(cfg, s, acts, k) && IdleFor(s, k, passes, deficit)
    ensures var t := Exec(cfg, s, acts);
            && s.writer.passes <= t.writer.passes
            && IdleFor(t, k, passes + (t.writer.passes - s.writer.passes), deficit)
    decreases |acts|
  {
    if acts == [] {
    } else {
      var next := Apply(cfg, s, acts[0]);
      IdleStep(cfg, s, acts[0], k, passes, deficit);
      IdleRun(cfg, next, acts[1..], k, passes + (next.writer.passes - s.writer.passes), deficit);
    }
  }

  /** From every reachable state in which the bucket of `k` has just been emptied, over
      every run that enqueues nothing for it: after `n` round-robin passes the bucket is
      there if and only if `n < 8`, with its credit untouched; and once it is gone the
      next frame of `k` finds a bucket without credit, in whatever state it comes. */
  lemma ReapedAfterEightPasses(cfg: Config, before: seq<Action>, acts: seq<Action>, k: nat, f: Frame)
    requires ValidConfig(cfg) && Legal(cfg, INITIAL, before)
    requires var s := Exec(cfg, INITIAL, before);
             && Legal(cfg, s, acts) && Unfed(cfg, s, acts, k)
             && k in s.shared.buckets && s.shared.buckets[k].queue == [] && s.shared.buckets[k].idlePasses == 0
    requires f.StreamId() == k
    ensures var s := Exec(cfg, INITIAL, before); var t := Exec(cfg, s, acts);
            var n := t.writer.passes - s.writer.passes;
            && (k in t.shared.buckets <==> n < 8)
            && (n < 8 ==> t.shared.buckets[k].queue == [] && t.shared.buckets[k].deficit == s.shared.buckets[k].deficit)
            && (n >= 8 && !t.shared.writerDone ==>
                  var u := EnqueueBucket(cfg, t.shared, f).buckets; k in u && u[k].deficit == 0)
  {
    var s := Exec(cfg, INITIAL, before);
    InitialInvariant(cfg);
    InvariantRun(cfg, INITIAL, before);
    assert ValidBucket(k, s.shared.buckets[k]);
    IdleRun(cfg, s, acts, k, 0, s.shared.buckets[k].deficit);
  }

  /** A visit that empties a bucket leaves it with no idle passes, so every bucket in a
      reachable state is backlogged or has been idle for fewer than eight passes. */
  predicate Fresh(b: Bucket) {
    b.idlePasses < 8 && (b.queue != [] ==> b.idlePasses == 0)
  }

  predicate AllFresh(m: map<nat, Bucket>) {
    forall k :: k in m ==> Fresh(m[k])
  }

  lemma PassStaysFresh(cfg: Config, s: State, order: seq<nat>)
    requires WriterEnabled(s, RoundRobin(order)) && AllFresh(s.shared.buckets)
    ensures AllFresh(AfterPass(cfg, s, order).shared.buckets)
  {
  }

  lemma EnqueueStaysFresh(cfg: Config, s: Shared, f: Frame)
    requires AllFresh(s.buckets)
    ensures AllFresh(EnqueueBucket(cfg, s, f).buckets)
  {
  }

  lemma FreshStep(cfg: Config, s: State, a: Action)
    requires Enabled(cfg, s, a) && AllFresh(s.shared.buckets)
    ensures AllFresh(Apply(cfg, s, a).shared.buckets)
  {
    if a == Consume(Enqueue) {
      EnqueueStaysFresh(cfg, s.shared, s.consumer.at.frame);
    } else if a.Write? && a.w.RoundRobin? {
      PassStaysFresh(cfg, s, a.w.order);
    }
  }

  lemma {:induction false} NoStaleBucket(cfg: Config, s: State, acts: seq<Action>)
    requires Legal(cfg, s, acts) && AllFresh(s.shared.buckets)
    ensures forall k :: k in Exec(cfg, s, acts).shared.buckets ==> Fresh(Exec(cfg, s, acts).shared.buckets[k])
    decreases |acts|
  {
    if acts == [] {
    } else {
      FreshStep(cfg, s, acts[0]);
      NoStaleBucket(cfg, Apply(cfg, s, acts[0]), acts[1..]);
    }
  }
}
