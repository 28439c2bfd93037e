/** The same limits over whole runs of the scheduler: which configurations keep the
    two promises of the header, and a run that breaks them for every other one. */
module SchedulerBurstRuns {
  import opened Frames
  import opened Scheduler
  import opened SchedulerOrder
  import opened SchedulerFairness
  import opened SchedulerBurst

  // ---------------------------------------------------------------------
  // The two promises

  /** A run that stands right before a pass in this order. */
  predicate BeforePass(cfg: Config, acts: seq<Action>, order: seq<nat>) {
    Legal(cfg, INITIAL, acts) && WriterEnabled(Exec(cfg, INITIAL, acts), RoundRobin(order))
  }

  /** The bytes of a stream that the pass sends. */
  function PassBytes(cfg: Config, acts: seq<Action>, order: seq<nat>, id: nat): nat
    requires BeforePass(cfg, acts, order)
  {
    Bytes(Select(PassBatch(Exec(cfg, INITIAL, acts).shared.buckets, order, cfg.roundBudget), Stream(id)))
  }

  predicate BothBacklogged(cfg: Config, acts: seq<Action>, a: nat, b: nat)
    requires Legal(cfg, INITIAL, acts)
  {
    Backlogged(Exec(cfg, INITIAL, acts), a) && Backlogged(Exec(cfg, INITIAL, acts), b)
  }

  /** No pass of any run sends more than the round budget of one stream beyond what
      it sends of another that holds backlog. */
  ghost predicate NeverAhead(cfg: Config) {
    forall acts, order, a, b :: BeforePass(cfg, acts, order) && BothBacklogged(cfg, acts, a, b) ==>
      PassBytes(cfg, acts, order, a) <= PassBytes(cfg, acts, order, b) + cfg.roundBudget
  }

  /** No pass of any run sends more than the round budget and one frame of a stream. */
  ghost predicate RoundLimited(cfg: Config) {
    forall acts, order, id :: BeforePass(cfg, acts, order) ==>
      PassBytes(cfg, acts, order, id) <= cfg.roundBudget + MAX_FRAME_PAYLOAD
  }

  lemma PassSendsServed(cfg: Config, acts: seq<Action>, order: seq<nat>, id: nat)
    requires ValidConfig(cfg) && BeforePass(cfg, acts, order)
    ensures var m := Exec(cfg, INITIAL, acts).shared.buckets;
            PassBytes(cfg, acts, order, id) ==
              if id in m then Bytes(Served(m[id], cfg.roundBudget)) else 0
  {
    InitialInvariant(cfg);
    InvariantRun(cfg, INITIAL, acts);
    var m := Exec(cfg, INITIAL, acts).shared.buckets;
    BatchOfStream(m, order, cfg.roundBudget, id);
    assert id in m.Keys <==> id in order;
  }

  lemma PassWithinCapacity(cfg: Config, acts: seq<Action>, order: seq<nat>, id: nat)
    requires ValidConfig(cfg) && BeforePass(cfg, acts, order)
    ensures PassBytes(cfg, acts, order, id) <= cfg.bucketCapacity
  {
    PassSendsServed(cfg, acts, order, id);
    QueuesStayBounded(cfg, acts);
    var m := Exec(cfg, INITIAL, acts).shared.buckets;
    if id in m {
      BytesSplit(m[id].queue, ServedCount(m[id], cfg.roundBudget));
    }
  }

  // ---------------------------------------------------------------------
  // Runs from the start

  /** Nothing in flight outside the buckets, and the writer at the top of its loop. */
  predicate Calm(s: State) {
    && s.ingress.bulk == [] && s.ingress.control == [] && !s.ingress.producersGone
    && s.consumer == Consumer(Selecting, None, false, false)
    && s.shared.priority == [] && s.shared.ingressOpen && !s.shared.writerDone
    && s.writer.at.Draining? && !s.writer.failed
  }

  /** A producer queues one frame and the consumer places it. */
  lemma Feed(cfg: Config, acts: seq<Action>, s: State, f: Frame) returns (longer: seq<Action>, t: State)
    requires ValidConfig(cfg) && Reaches(cfg, acts, s) && Calm(s) && IsBulk(f) && Fits(cfg, s.shared, f)
    ensures Reaches(cfg, longer, t) && Calm(t) && t.shared == EnqueueBucket(cfg, s.shared, f)
  {
    longer := Then(cfg, acts, s, Send(f));
    t := Apply(cfg, s, Send(f));
    assert t.ingress.bulk == [f];
    longer := Then(cfg, longer, t, Consume(ReceiveBulk));
    t := Apply(cfg, t, Consume(ReceiveBulk));
    longer := Then(cfg, longer, t, Consume(Enqueue));
    t := Apply(cfg, t, Consume(Enqueue));
    longer := Then(cfg, longer, t, Consume(NotifyWork));
    t := Apply(cfg, t, Consume(NotifyWork));
  }

  /** The shared state with `q` appended to a stream's bucket. */
  function Grown(s: Shared, id: nat, q: seq<Frame>): Shared {
    if q == [] then s
    else
      var b := BucketOf(s, id);
      s.(buckets := s.buckets[id := Bucket(b.queue + q, b.queuedBytes + Bytes(q), b.deficit, 0)],
         totalBucketBytes := s.totalBucketBytes + Bytes(q))
  }

  lemma GrownStep(cfg: Config, s: Shared, id: nat, q: seq<Frame>)
    requires q != [] && q[0].StreamId() == id && Fits(cfg, s, q[0]) && !s.writerDone
    ensures Grown(EnqueueBucket(cfg, s, q[0]), id, q[1..]) == Grown(s, id, q)
  {
    var b := BucketOf(s, id);
    assert b.queue + [q[0]] + q[1..] == b.queue + q;
    if q[1..] == [] {
      assert b.queue + [q[0]] == b.queue + q;
      assert Bytes(q) == q[0].PayloadLen();
      assert EnqueueBucket(cfg, s, q[0]).buckets == Grown(s, id, q).buckets;
    } else {
      assert EnqueueBucket(cfg, s, q[0]).buckets[id].queue == b.queue + [q[0]];
      assert Grown(EnqueueBucket(cfg, s, q[0]), id, q[1..]).buckets == Grown(s, id, q).buckets;
    }
  }

  lemma {:induction false} FeedAll(cfg: Config, acts: seq<Action>, s: State, id: nat, q: seq<Frame>)
      returns (longer: seq<Action>, t: State)
    requires ValidConfig(cfg) && Reaches(cfg, acts, s) && Calm(s) && QueueOf(id, q)
    requires BucketOf(s.shared, id).queuedBytes + Bytes(q) <= cfg.bucketCapacity
    requires s.shared.totalBucketBytes + Bytes(q) <= cfg.linkBudget
    ensures Reaches(cfg, longer, t) && Calm(t) && t.shared == Grown(s.shared, id, q)
    decreases |q|
  {
    if q == [] {
      longer, t := acts, s;
    } else {
      assert q[0] in q;
      longer, t := Feed(cfg, acts, s, q[0]);
      GrownStep(cfg, s.shared, id, q);
      longer, t := FeedAll(cfg, longer, t, id, q[1..]);
    }
  }

  lemma ReachPass(cfg: Config, acts: seq<Action>, s: State) returns (longer: seq<Action>, t: State)
    requires Reaches(cfg, acts, s) && Calm(s)
    ensures Reaches(cfg, longer, t) && t == s.(writer := s.writer.(at := Passing(false)))
  {
    longer := Then(cfg, acts, s, Write(DrainPriority));
    t := Apply(cfg, s, Write(DrainPriority));
    longer := Then(cfg, longer, t, Write(PriorityWritten));
    t := Apply(cfg, t, Write(PriorityWritten));
  }

  // ---------------------------------------------------------------------
  // Saving credit

  /** Calm, and no bucket but the stream's own empty one. */
  predicate Rested(s: State, id: nat) {
    && Calm(s) && s.shared.totalBucketBytes == 0 && s.shared.buckets.Keys <= {id}
    && (id in s.shared.buckets ==> s.shared.buckets[id].queue == [] && s.shared.buckets[id].queuedBytes == 0)
  }

  /** A frame without payload costs a visit nothing. */
  function Free(id: nat): Frame {
    Data(id, [])
  }

  lemma FreeVisit(id: nat, credit: nat, roundBudget: nat)
    ensures Served(Bucket([Free(id)], 0, credit, 0), roundBudget) == [Free(id)]
    ensures Visit(Bucket([Free(id)], 0, credit, 0), roundBudget) == Bucket([], 0, credit + roundBudget, 0)
  {
    assert Bytes([Free(id)]) == 0;
    AffordAll([Free(id)], credit + roundBudget);
  }

  /** One pass over that bucket alone sends the frame and leaves the whole budget as
      credit. */
  lemma FreePass(cfg: Config, s: State, id: nat, credit: nat)
    requires s.shared == Shared([], map[id := Bucket([Free(id)], 0, credit, 0)], 0, true, false)
    requires s.writer.at == Passing(false)
    ensures WriterEnabled(s, RoundRobin([id]))
    ensures AfterPass(cfg, s, [id])
         == s.(shared := Shared([], map[id := Bucket([], 0, credit + cfg.roundBudget, 0)], 0, true, false),
               writer := s.writer.(at := Freed([Free(id)], true, false), passes := s.writer.passes + 1))
  {
    var m := s.shared.buckets;
    FreeVisit(id, credit, cfg.roundBudget);
    assert [id][1..] == [];
    assert PassBatch(m, [id], cfg.roundBudget) == [Free(id)];
    assert VisitAll(m, cfg.roundBudget) == map[id := Bucket([], 0, credit + cfg.roundBudget, 0)];
    assert Reap(VisitAll(m, cfg.roundBudget)) == VisitAll(m, cfg.roundBudget);
  }

  lemma Serve(cfg: Config, acts: seq<Action>, s: State, id: nat, credit: nat) returns (longer: seq<Action>, t: State)
    requires Reaches(cfg, acts, s) && Calm(s)
    requires s.shared == Shared([], map[id := Bucket([Free(id)], 0, credit, 0)], 0, true, false)
    ensures Reaches(cfg, longer, t) && Rested(t, id) && Credit(t, id) == credit + cfg.roundBudget
  {
    longer, t := ReachPass(cfg, acts, s);
    FreePass(cfg, t, id, credit);
    longer := Then(cfg, longer, t, Write(RoundRobin([id])));
    t := AfterPass(cfg, t, [id]);
    longer := Then(cfg, longer, t, Write(NotifySpace));
    t := Apply(cfg, t, Write(NotifySpace));
    longer := Then(cfg, longer, t, Write(WriteFrame));
    t := Apply(cfg, t, Write(WriteFrame));
    longer := Then(cfg, longer, t, Write(BatchWritten));
    t := Apply(cfg, t, Write(BatchWritten));
  }

  /** Whatever the amount, some run leaves a stream with that much credit and an
      empty queue. */
  lemma {:induction false} CreditIsUnbounded(cfg: Config, id: nat, amount: nat) returns (acts: seq<Action>, s: State)
    requires ValidConfig(cfg)
    ensures Legal(cfg, INITIAL, acts) && Exec(cfg, INITIAL, acts) == s
    ensures Rested(s, id) && Credit(s, id) >= amount
    decreases amount
  {
    if amount == 0 {
      acts, s := [], INITIAL;
    } else {
      acts, s := CreditIsUnbounded(cfg, id, amount - 1);
      var credit := Credit(s, id);
      assert Bytes([Free(id)]) == 0;
      acts, s := Feed(cfg, acts, s, Free(id));
      assert [] + [Free(id)] == [Free(id)];
      assert s.shared.buckets == map[id := Bucket([Free(id)], 0, credit, 0)];
      acts, s := Serve(cfg, acts, s, id, credit);
    }
  }

  // ---------------------------------------------------------------------
  // Spending it

  /** A stream with this much credit and a full queue stands before a pass next to a
      stream with a single empty frame. */
  lemma FaceOff(cfg: Config, amount: nat, a: nat, b: nat, q: seq<Frame>)
      returns (acts: seq<Action>, order: seq<nat>)
    requires ValidConfig(cfg) && a != b && Holds(a, q, cfg.bucketCapacity) && q != []
    ensures BeforePass(cfg, acts, order) && BothBacklogged(cfg, acts, a, b)
    ensures var m := Exec(cfg, INITIAL, acts).shared.buckets;
            && m[a].queue == q && m[a].deficit >= amount
            && m[b].queue == [Close(b)]
  {
    var s;
    acts, s := CreditIsUnbounded(cfg, a, amount);
    acts, s := FeedAll(cfg, acts, s, a, q);
    acts, s := Feed(cfg, acts, s, Close(b));
    assert s.shared.buckets.Keys == {a, b};
    acts, s := ReachPass(cfg, acts, s);
    order := [a, b];
  }

  lemma ServedIsBurst(b: Bucket, roundBudget: nat)
    ensures Bytes(Served(b, roundBudget)) == Burst(b.queue, b.deficit, roundBudget)
  {
  }

  /** In every other configuration some pass of some run breaks the promise. */
  lemma GetsAhead(cfg: Config, a: nat, b: nat) returns (acts: seq<Action>, order: seq<nat>)
    requires ValidConfig(cfg) && a != b && cfg.roundBudget < cfg.bucketCapacity
    ensures BeforePass(cfg, acts, order) && BothBacklogged(cfg, acts, a, b)
    ensures PassBytes(cfg, acts, order, a) > PassBytes(cfg, acts, order, b) + cfg.roundBudget
  {
    acts, order := FaceOff(cfg, 1, a, b, Overlong(a, cfg.roundBudget));
    var m := Exec(cfg, INITIAL, acts).shared.buckets;
    PassSendsServed(cfg, acts, order, a);
    PassSendsServed(cfg, acts, order, b);
    ServedIsBurst(m[a], cfg.roundBudget);
    ServedIsBurst(m[b], cfg.roundBudget);
    OverlongBurst(a, m[a].deficit, cfg.roundBudget);
    OneFrameBurst(Close(b), m[b].deficit, cfg.roundBudget);
  }

  /** The promise that no stream gets more than one round budget ahead of a backlogged
      one holds over all runs exactly when a bucket holds no more than a round budget. */
  lemma NeverAheadExactly(cfg: Config)
    requires ValidConfig(cfg)
    ensures NeverAhead(cfg) <==> cfg.bucketCapacity <= cfg.roundBudget
  {
    if cfg.bucketCapacity <= cfg.roundBudget {
      forall acts, order, a, b | BeforePass(cfg, acts, order) && BothBacklogged(cfg, acts, a, b)
        ensures PassBytes(cfg, acts, order, a) <= PassBytes(cfg, acts, order, b) + cfg.roundBudget
      {
        PassWithinCapacity(cfg, acts, order, a);
      }
    } else {
      var acts, order := GetsAhead(cfg, 1, 3);
      assert !(PassBytes(cfg, acts, order, 1) <= PassBytes(cfg, acts, order, 3) + cfg.roundBudget);
    }
  }

  /** And the limit of a round budget and one frame exactly when a bucket holds no
      more than that. */
  lemma RoundLimitedExactly(cfg: Config)
    requires ValidConfig(cfg)
    ensures RoundLimited(cfg) <==> cfg.bucketCapacity <= cfg.roundBudget + MAX_FRAME_PAYLOAD
  {
    if cfg.bucketCapacity <= cfg.roundBudget + MAX_FRAME_PAYLOAD {
      forall acts, order, id | BeforePass(cfg, acts, order)
        ensures PassBytes(cfg, acts, order, id) <= cfg.roundBudget + MAX_FRAME_PAYLOAD
      {
        PassWithinCapacity(cfg, acts, order, id);
      }
    } else {
      var q := Ones(1, cfg.roundBudget + MAX_FRAME_PAYLOAD + 1);
      var acts, order := FaceOff(cfg, MAX_FRAME_PAYLOAD + 1, 1, 3, q);
      var m := Exec(cfg, INITIAL, acts).shared.buckets;
      PassSendsServed(cfg, acts, order, 1);
      ServedIsBurst(m[1], cfg.roundBudget);
      SpendAll(q, m[1].deficit, cfg.roundBudget);
      assert !(PassBytes(cfg, acts, order, 1) <= cfg.roundBudget + MAX_FRAME_PAYLOAD);
    }
  }
}
