/** Deficit round robin: what a visit may take, and fairness between streams
    that stay backlogged. */
module SchedulerFairness {
  import opened Frames
  import opened Scheduler
  import opened SchedulerAccounting
  import opened SchedulerOrder

  /** A round budget large enough for any frame. */
  predicate AmpleBudget(cfg: Config) {
    MAX_FRAME_PAYLOAD <= cfg.roundBudget
  }

  // ---------------------------------------------------------------------
  // One visit

  /** For any budget, every backlogged stream transmits in every pass, from the
      front of its queue. */
  lemma EveryBacklogIsServed(m: map<nat, Bucket>, order: seq<nat>, roundBudget: nat, id: nat)
    requires ValidBuckets(m) && IsOrder(order, m.Keys) && id in m && m[id].queue != []
    ensures var sent := Select(PassBatch(m, order, roundBudget), Stream(id));
            sent != [] && sent <= m[id].queue
  {
    assert id in m.Keys && id in order;
    BatchOfStream(m, order, roundBudget, id);
  }

  /** Credit is what is left of budget and carry-over; with an ample budget it
      stays non-negative, and below one frame while a backlog remains. */
  lemma VisitCredit(id: nat, b: Bucket, roundBudget: nat)
    requires ValidBucket(id, b) && 0 <= b.deficit && MAX_FRAME_PAYLOAD <= roundBudget
    ensures var r := Visit(b, roundBudget);
            && 0 <= r.deficit
            && (b.queue != [] ==> r.deficit == b.deficit + roundBudget - Bytes(Served(b, roundBudget)))
            && (r.queue != [] ==> r.deficit < MAX_FRAME_PAYLOAD)
  {
    if b.queue != [] {
      var n := Affordable(b.queue, b.deficit + roundBudget);
      assert IsBulk(b.queue[0]);
      if n < |b.queue| {
        assert b.queue[n] in b.queue;
      }
    }
  }

  // ---------------------------------------------------------------------
  // Deficits never go negative

  predicate NonNegativeCredit(m: map<nat, Bucket>) {
    forall k :: k in m ==> 0 <= m[k].deficit
  }

  lemma NonNegativeCreditPass(cfg: Config, m: map<nat, Bucket>)
    requires AmpleBudget(cfg) && ValidBuckets(m) && NonNegativeCredit(m)
    ensures NonNegativeCredit(Reap(VisitAll(m, cfg.roundBudget)))
  {
    forall k | k in m
      ensures 0 <= Visit(m[k], cfg.roundBudget).deficit
    {
      VisitCredit(k, m[k], cfg.roundBudget);
    }
  }

  lemma NonNegativeCreditStep(cfg: Config, s: State, a: Action)
    requires AmpleBudget(cfg) && Shape(cfg, s) && NonNegativeCredit(s.shared.buckets) && Enabled(cfg, s, a)
    ensures NonNegativeCredit(Apply(cfg, s, a).shared.buckets)
  {
    if a.Write? && a.w.RoundRobin? {
      NonNegativeCreditPass(cfg, s.shared.buckets);
    } else if a.Consume? && a.c.Enqueue? {
      NonNegativeCreditEnqueue(cfg, s.shared, s.consumer.at.frame);
    } else {
      OthersKeepBuckets(cfg, s, a);
    }
  }

  lemma NonNegativeCreditEnqueue(cfg: Config, s: Shared, f: Frame)
    requires NonNegativeCredit(s.buckets) && f.IsBulkOrdered()
    ensures NonNegativeCredit(EnqueueBucket(cfg, s, f).buckets)
  {
  }

  lemma OthersKeepBuckets(cfg: Config, s: State, a: Action)
    requires Enabled(cfg, s, a) && !(a.Write? && a.w.RoundRobin?) && !(a.Consume? && a.c.Enqueue?)
    ensures Apply(cfg, s, a).shared.buckets == s.shared.buckets
  {
  }

  lemma {:induction false} NonNegativeCreditRun(cfg: Config, s: State, acts: seq<Action>)
    requires ValidConfig(cfg) && AmpleBudget(cfg) && Invariant(cfg, s) && NonNegativeCredit(s.shared.buckets)
    requires Legal(cfg, s, acts)
    ensures NonNegativeCredit(Exec(cfg, s, acts).shared.buckets)
    decreases |acts|
  {
    if acts == [] {
    } else {
      NonNegativeCreditStep(cfg, s, acts[0]);
      InvariantStep(cfg, s, acts[0]);
      NonNegativeCreditRun(cfg, Apply(cfg, s, acts[0]), acts[1..]);
    }
  }

  // ---------------------------------------------------------------------
  // A window of a run throughout which a stream stays backlogged

  predicate Backlogged(s: State, id: nat) {
    id in s.shared.buckets && s.shared.buckets[id].queue != []
  }

  predicate StaysBacklogged(cfg: Config, s: State, acts: seq<Action>, id: nat)
    requires Legal(cfg, s, acts)
    decreases |acts|
  {
    Backlogged(s, id) && (acts != [] ==> StaysBacklogged(cfg, Apply(cfg, s, acts[0]), acts[1..], id))
  }

  /** Bytes one step takes from a stream's bucket for emission. */
  function StepBytes(cfg: Config, s: State, a: Action, id: nat): nat {
    if a.Write? && a.w.RoundRobin? && id in s.shared.buckets
    then Bytes(Served(s.shared.buckets[id], cfg.roundBudget)) else 0
  }

  function ServedBytes(cfg: Config, s: State, acts: seq<Action>, id: nat): nat
    requires Legal(cfg, s, acts)
    decreases |acts|
  {
    if acts == [] then 0
    else StepBytes(cfg, s, acts[0], id) + ServedBytes(cfg, Apply(cfg, s, acts[0]), acts[1..], id)
  }

  /** Budget handed to each live bucket by the passes among the steps. */
  function Granted(cfg: Config, acts: seq<Action>): nat {
    if acts == [] then 0 else StepGrant(cfg, acts[0]) + Granted(cfg, acts[1..])
  }

  function StepGrant(cfg: Config, a: Action): nat {
    if a.Write? && a.w.RoundRobin? then cfg.roundBudget else 0
  }

  function Credit(s: State, id: nat): int {
    BucketOf(s.shared, id).deficit
  }

  /** Credit within one frame, as every pass leaves a backlogged stream. */
  predicate Settled(s: State, id: nat) {
    0 <= Credit(s, id) < MAX_FRAME_PAYLOAD
  }

  lemma PassCredit(cfg: Config, s: State, order: seq<nat>, id: nat)
    requires AmpleBudget(cfg) && ValidBuckets(s.shared.buckets) && WriterEnabled(s, RoundRobin(order))
    requires Backlogged(s, id) && Backlogged(AfterPass(cfg, s, order), id) && 0 <= Credit(s, id)
    ensures var t := AfterPass(cfg, s, order);
            && Settled(t, id)
            && Bytes(Served(s.shared.buckets[id], cfg.roundBudget)) + Credit(t, id) == Credit(s, id) + cfg.roundBudget
  {
    VisitCredit(id, s.shared.buckets[id], cfg.roundBudget);
  }

  lemma OtherStepKeepsCredit(cfg: Config, s: State, a: Action, id: nat)
    requires Enabled(cfg, s, a) && !(a.Write? && a.w.RoundRobin?) && Backlogged(s, id)
    ensures Credit(Apply(cfg, s, a), id) == Credit(s, id)
  {
  }

  /** Over the window a backlogged stream emits what it is granted, up to the
      change in its credit. */
  lemma {:induction false} CreditBalance(cfg: Config, s: State, acts: seq<Action>, id: nat)
    requires ValidConfig(cfg) && AmpleBudget(cfg) && Invariant(cfg, s) && Legal(cfg, s, acts)
    requires StaysBacklogged(cfg, s, acts, id) && Settled(s, id)
    ensures var t := Exec(cfg, s, acts);
            && Settled(t, id)
            && ServedBytes(cfg, s, acts, id) + Credit(t, id) == Credit(s, id) + Granted(cfg, acts)
    decreases |acts|
  {
    if acts == [] {
    } else {
      var u := Apply(cfg, s, acts[0]);
      assert Backlogged(u, id);
      if acts[0].Write? && acts[0].w.RoundRobin? {
        PassCredit(cfg, s, acts[0].w.order, id);
      } else {
        OtherStepKeepsCredit(cfg, s, acts[0], id);
      }
      InvariantStep(cfg, s, acts[0]);
      CreditBalance(cfg, u, acts[1..], id);
    }
  }

  /** A pass that leaves a stream backlogged leaves its credit settled. */
  lemma PassSettles(cfg: Config, s: State, order: seq<nat>, id: nat)
    requires AmpleBudget(cfg) && Shape(cfg, s) && NonNegativeCredit(s.shared.buckets)
    requires WriterEnabled(s, RoundRobin(order)) && Backlogged(AfterPass(cfg, s, order), id)
    ensures Settled(AfterPass(cfg, s, order), id)
  {
    VisitCredit(id, s.shared.buckets[id], cfg.roundBudget);
  }

  /** Fairness: from a pass that leaves two streams backlogged, over any further
      steps throughout which both stay backlogged, the bytes the two emit differ
      by less than two maximal frames. */
  lemma BackloggedStreamsShareFairly(cfg: Config, before: seq<Action>, order: seq<nat>, window: seq<Action>, a: nat, b: nat)
    requires ValidConfig(cfg) && AmpleBudget(cfg) && Legal(cfg, INITIAL, before)
    requires WriterEnabled(Exec(cfg, INITIAL, before), RoundRobin(order))
    requires var s := AfterPass(cfg, Exec(cfg, INITIAL, before), order);
             Legal(cfg, s, window) && StaysBacklogged(cfg, s, window, a) && StaysBacklogged(cfg, s, window, b)
    ensures var s := AfterPass(cfg, Exec(cfg, INITIAL, before), order);
            var gap := ServedBytes(cfg, s, window, a) - ServedBytes(cfg, s, window, b);
            -2 * MAX_FRAME_PAYLOAD < gap < 2 * MAX_FRAME_PAYLOAD
  {
    var r := Exec(cfg, INITIAL, before);
    var s := AfterPass(cfg, r, order);
    InitialInvariant(cfg);
    InvariantRun(cfg, INITIAL, before);
    NonNegativeCreditRun(cfg, INITIAL, before);
    InvariantStep(cfg, r, Write(RoundRobin(order)));
    assert Backlogged(s, a) && Backlogged(s, b);
    PassSettles(cfg, r, order, a);
    PassSettles(cfg, r, order, b);
    CreditBalance(cfg, s, window, a);
    CreditBalance(cfg, s, window, b);
  }
}
