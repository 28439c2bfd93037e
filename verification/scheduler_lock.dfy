/** The scheduler's lock sections as they run: in-place updates of the shared
    state, proved against what `Scheduler` says they compute. */
module SchedulerLock {
  import opened Frames
  import opened Scheduler

  class SharedCell {
    var priority: seq<Frame>
    var buckets: map<nat, Bucket>
    var totalBucketBytes: int
    var ingressOpen: bool
    var writerDone: bool

    function View(): Shared
      reads this
    {
      Shared(priority, buckets, totalBucketBytes, ingressOpen, writerDone)
    }

    constructor ()
      ensures View() == INITIAL.shared
    {
      priority, buckets, totalBucketBytes, ingressOpen, writerDone := [], map[], 0, true, false;
    }

    /** `enqueue_bucket`: the capacity check and the push are one section. */
    method TryEnqueue(cfg: Config, frame: Frame) returns (outcome: BucketEnqueue)
      modifies this
      ensures View() == EnqueueBucket(cfg, old(View()), frame)
      ensures outcome == EnqueueOutcome(cfg, old(View()), frame)
    {
      var id, len := frame.StreamId(), frame.PayloadLen();
      if writerDone {
        return Drop;
      }
      if id !in buckets {
        buckets := buckets[id := EMPTY_BUCKET];
      }
      var b := buckets[id];
      if b.queuedBytes + len <= cfg.bucketCapacity && totalBucketBytes + len <= cfg.linkBudget {
        buckets := buckets[id := b.(queue := b.queue + [frame], queuedBytes := b.queuedBytes + len, idlePasses := 0)];
        totalBucketBytes := totalBucketBytes + len;
        outcome := Fitted;
      } else {
        assert buckets == old(buckets)[id := b];
        outcome := Park(frame);
      }
    }

    /** One round-robin pass: every bucket is visited, the freed bytes leave the
        total, and buckets idle for long enough are reaped. */
    method RoundRobinPass(roundBudget: nat) returns (batch: seq<Frame>, more: bool, ghost order: seq<nat>)
      modifies this
      ensures IsOrder(order, old(buckets).Keys)
      ensures batch == PassBatch(old(buckets), order, roundBudget)
      ensures View() == Pass(old(View()), order, roundBudget)
      ensures more == MoreWork(View())
    {
      var totalFreed;
      batch, buckets, totalFreed, order := VisitBuckets(buckets, roundBudget);
      totalBucketBytes := totalBucketBytes - totalFreed;
      more := priority != [] || AnyBacklog(buckets) || ingressOpen;
    }
  }

  /** The buckets outside `todo` have had their turn, in the order recorded. */
  ghost predicate PassProgress(before: map<nat, Bucket>, now: map<nat, Bucket>, todo: set<nat>,
                               order: seq<nat>, batch: seq<Frame>, roundBudget: nat)
  {
    && todo <= before.Keys == now.Keys
    && (forall k :: k in before ==> now[k] == if k in todo then before[k] else Visit(before[k], roundBudget))
    && IsOrder(order, before.Keys - todo)
    && batch == PassBatch(before, order, roundBudget)
  }

  lemma PassProgressStep(before: map<nat, Bucket>, now: map<nat, Bucket>, todo: set<nat>,
                         order: seq<nat>, batch: seq<Frame>, roundBudget: nat, k: nat)
    requires PassProgress(before, now, todo, order, batch, roundBudget) && k in todo
    ensures PassProgress(before, now[k := Visit(before[k], roundBudget)], todo - {k}, order + [k],
                         batch + Served(before[k], roundBudget), roundBudget)
  {
    PassBatchSnoc(before, order, k, roundBudget);
    OrderSnoc(order, before.Keys - todo, k);
    assert before.Keys - (todo - {k}) == before.Keys - todo + {k};
  }

  lemma PassProgressDone(before: map<nat, Bucket>, now: map<nat, Bucket>,
                         order: seq<nat>, batch: seq<Frame>, roundBudget: nat)
    requires PassProgress(before, now, {}, order, batch, roundBudget)
    ensures IsOrder(order, before.Keys) && now == VisitAll(before, roundBudget)
  {
    var none: set<nat> := {};
    assert before.Keys - none == before.Keys;
  }

  /** The loop over the map, in whatever order it yields its buckets. */
  method VisitBuckets(buckets: map<nat, Bucket>, roundBudget: nat)
    returns (batch: seq<Frame>, kept: map<nat, Bucket>, totalFreed: nat, ghost order: seq<nat>)
    ensures IsOrder(order, buckets.Keys)
    ensures batch == PassBatch(buckets, order, roundBudget)
    ensures kept == Reap(VisitAll(buckets, roundBudget))
    ensures totalFreed == Bytes(batch)
  {
    batch, totalFreed, order := [], 0, [];
    var visited, todo := buckets, buckets.Keys;
    assert PassProgress(buckets, visited, todo, order, batch, roundBudget);
    while todo != {}
      invariant PassProgress(buckets, visited, todo, order, batch, roundBudget)
      invariant totalFreed == Bytes(batch)
      decreases todo
    {
      var k :| k in todo;
      var served, after := VisitBucket(visited[k], roundBudget);
      PassProgressStep(buckets, visited, todo, order, batch, roundBudget, k);
      BytesConcat(batch, served);
      visited := visited[k := after];
      batch := batch + served;
      totalFreed := totalFreed + Bytes(served);
      order := order + [k];
      todo := todo - {k};
    }
    PassProgressDone(buckets, visited, order, batch, roundBudget);
    kept := map k | k in visited && !Reapable(visited[k]) :: visited[k];
  }

  lemma OrderSnoc(order: seq<nat>, keys: set<nat>, k: nat)
    requires IsOrder(order, keys) && k !in keys
    ensures IsOrder(order + [k], keys + {k})
  {
    var longer := order + [k];
    forall x | x in keys + {k}
      ensures x in longer
    {
      if x in keys {
        assert x in order;
      } else {
        assert longer[|order|] == x;
      }
    }
  }

  lemma {:induction false} PassBatchSnoc(m: map<nat, Bucket>, order: seq<nat>, k: nat, roundBudget: nat)
    requires k in m && forall i :: 0 <= i < |order| ==> order[i] in m
    ensures PassBatch(m, order + [k], roundBudget) == PassBatch(m, order, roundBudget) + Served(m[k], roundBudget)
  {
    var longer := order + [k];
    if order == [] {
      assert longer[1..] == [];
    } else {
      assert longer[1..] == order[1..] + [k];
      PassBatchSnoc(m, order[1..], k, roundBudget);
    }
  }

  lemma PopStep(q: seq<Frame>, n: nat, credit: int)
    requires n < |q| && q[n].PayloadLen() <= credit
    ensures Bytes(q[..n + 1]) == Bytes(q[..n]) + q[n].PayloadLen()
    ensures Affordable(q[n..], credit) == 1 + Affordable(q[n + 1..], credit - q[n].PayloadLen())
  {
    assert q[n..][1..] == q[n + 1..];
    assert q[..n + 1] == q[..n] + [q[n]];
    BytesConcat(q[..n], [q[n]]);
  }

  /** The inner loop: pop while the credit covers the front frame. */
  method PopAffordable(q: seq<Frame>, credit: int) returns (taken: nat, deficit: int)
    ensures taken == Affordable(q, credit)
    ensures deficit == credit - Bytes(q[..taken])
  {
    taken, deficit := 0, credit;
    assert q[0..] == q;
    while taken < |q| && q[taken].PayloadLen() <= deficit
      invariant taken <= |q|
      invariant deficit == credit - Bytes(q[..taken])
      invariant Affordable(q, credit) == taken + Affordable(q[taken..], deficit)
    {
      PopStep(q, taken, deficit);
      deficit := deficit - q[taken].PayloadLen();
      taken := taken + 1;
    }
  }

  /** One bucket's turn; a live bucket gives up one frame even when its credit
      covers none. */
  method VisitBucket(bucket: Bucket, roundBudget: nat) returns (served: seq<Frame>, after: Bucket)
    ensures served == Served(bucket, roundBudget)
    ensures after == Visit(bucket, roundBudget)
  {
    if bucket.queue == [] {
      return [], bucket.(idlePasses := bucket.idlePasses + 1);
    }
    var taken, deficit := PopAffordable(bucket.queue, bucket.deficit + roundBudget);
    if taken == 0 {
      assert bucket.queue[..0] == [] && bucket.queue[..1] == [bucket.queue[0]];
      assert Bytes([bucket.queue[0]]) == bucket.queue[0].PayloadLen();
      taken, deficit := 1, deficit - bucket.queue[0].PayloadLen();
    }
    served := bucket.queue[..taken];
    after := Bucket(bucket.queue[taken..], bucket.queuedBytes - Bytes(served), deficit, 0);
  }
}
