/** Byte accounting across buckets: the running total is the exact sum of what
    is queued, through every lock section. */
module SchedulerAccounting {
  import opened Frames
  import opened Scheduler

  lemma {:induction false} BacklogRemove(m: map<nat, Bucket>, k: nat, u: Unit)
    requires k in m
    ensures Backlog(m, u) == BucketSize(m[k], u) + Backlog(m - {k}, u)
    decreases |m|
  {
    var first :| first in m && Backlog(m, u) == BucketSize(m[first], u) + Backlog(m - {first}, u);
    if first == k {
    } else {
      BacklogRemove(m - {first}, k, u);
      assert m - {first} - {k} == m - {k} - {first};
      BacklogRemove(m - {k}, first, u);
    }
  }

  lemma BacklogUpdate(m: map<nat, Bucket>, k: nat, b: Bucket, u: Unit)
    ensures Backlog(m[k := b], u) == Backlog(m, u) + BucketSize(b, u) - (if k in m then BucketSize(m[k], u) else 0)
  {
    BacklogRemove(m[k := b], k, u);
    assert m[k := b] - {k} == m - {k};
    if k in m {
      BacklogRemove(m, k, u);
    } else {
      assert m - {k} == m;
    }
  }

  /** Buckets that hold nothing do not contribute. */
  lemma {:induction false} BacklogIgnoresEmpty(m: map<nat, Bucket>, kept: map<nat, Bucket>, u: Unit)
    requires kept.Keys <= m.Keys
    requires forall k :: k in kept ==> kept[k] == m[k]
    requires forall k :: k in m && k !in kept ==> BucketSize(m[k], u) == 0
    ensures Backlog(kept, u) == Backlog(m, u)
    decreases |m|
  {
    if m == map[] {
      assert kept == map[];
    } else {
      var k :| k in m;
      BacklogRemove(m, k, u);
      BacklogIgnoresEmpty(m - {k}, kept - {k}, u);
      if k in kept {
        BacklogRemove(kept, k, u);
      } else {
        assert kept - {k} == kept;
      }
    }
  }

  lemma {:induction false} BacklogBound(m: map<nat, Bucket>, u: Unit)
    requires ValidBuckets(m)
    ensures forall k :: k in m ==> 0 <= BucketSize(m[k], u) <= Backlog(m, u)
    ensures 0 <= Backlog(m, u)
    decreases |m|
  {
    if m == map[] {
    } else {
      forall k | k in m
        ensures 0 <= BucketSize(m[k], u) <= Backlog(m, u)
      {
        BacklogRemove(m, k, u);
        BacklogBound(m - {k}, u);
      }
      var k :| k in m;
      assert BucketSize(m[k], u) <= Backlog(m, u);
    }
  }

  /** Something is queued whenever the byte total is positive. */
  lemma PositiveTotalMeansBacklog(m: map<nat, Bucket>)
    requires ValidBuckets(m) && Backlog(m, InBytes) > 0
    ensures AnyBacklog(m)
  {
    if !AnyBacklog(m) {
      var none: map<nat, Bucket> := map[];
      BacklogIgnoresEmpty(m, none, InBytes);
    }
  }

  // ---------------------------------------------------------------------
  // One pass

  lemma {:induction false} PassBatchFrame(m: map<nat, Bucket>, n: map<nat, Bucket>, order: seq<nat>, roundBudget: nat)
    requires forall i :: 0 <= i < |order| ==> order[i] in m && order[i] in n && m[order[i]] == n[order[i]]
    ensures PassBatch(m, order, roundBudget) == PassBatch(n, order, roundBudget)
  {
    if order == [] {
    } else {
      assert m[order[0]] == n[order[0]];
      PassBatchFrame(m, n, order[1..], roundBudget);
    }
  }

  lemma OrderTail(order: seq<nat>, m: map<nat, Bucket>)
    requires IsOrder(order, m.Keys) && order != []
    ensures IsOrder(order[1..], (m - {order[0]}).Keys)
  {
    var rest := order[1..];
    forall k | k in (m - {order[0]}).Keys
      ensures k in rest
    {
      var i :| 0 <= i < |order| && order[i] == k;
      assert rest[i - 1] == k;
    }
  }

  lemma VisitAllRemove(m: map<nat, Bucket>, k: nat, roundBudget: nat, u: Unit)
    requires k in m
    ensures Backlog(VisitAll(m, roundBudget), u)
         == BucketSize(Visit(m[k], roundBudget), u) + Backlog(VisitAll(m - {k}, roundBudget), u)
  {
    var visited := VisitAll(m, roundBudget);
    BacklogRemove(visited, k, u);
    assert visited - {k} == VisitAll(m - {k}, roundBudget);
  }

  /** What a pass takes out of the buckets is exactly what it puts in the batch. */
  lemma {:induction false} VisitAllBacklog(m: map<nat, Bucket>, order: seq<nat>, roundBudget: nat, u: Unit)
    requires IsOrder(order, m.Keys)
    ensures Backlog(m, u) == Backlog(VisitAll(m, roundBudget), u) + SizeOf(PassBatch(m, order, roundBudget), u)
    decreases |order|
  {
    if order == [] {
      assert forall k :: k in m.Keys ==> k in order;
      assert m == map[];
    } else {
      var k := order[0];
      OrderTail(order, m);
      VisitAllBacklog(m - {k}, order[1..], roundBudget, u);
      BacklogRemove(m, k, u);
      VisitAllRemove(m, k, roundBudget, u);
      PassBatchFrame(m, m - {k}, order[1..], roundBudget);
      BytesConcat(Served(m[k], roundBudget), PassBatch(m, order[1..], roundBudget));
      assert |m[k].queue| == |Served(m[k], roundBudget)| + |Visit(m[k], roundBudget).queue|;
    }
  }

  lemma PassBacklog(m: map<nat, Bucket>, order: seq<nat>, roundBudget: nat, u: Unit)
    requires ValidBuckets(m) && IsOrder(order, m.Keys)
    ensures Backlog(m, u) == Backlog(Reap(VisitAll(m, roundBudget)), u) + SizeOf(PassBatch(m, order, roundBudget), u)
  {
    var visited := VisitAll(m, roundBudget);
    VisitAllBacklog(m, order, roundBudget, u);
    forall k | k in visited && k !in Reap(visited)
      ensures BucketSize(visited[k], u) == 0
    {
      VisitKeepsValid(k, m[k], roundBudget);
    }
    BacklogIgnoresEmpty(visited, Reap(visited), u);
  }

  lemma VisitKeepsValid(id: nat, b: Bucket, roundBudget: nat)
    requires ValidBucket(id, b)
    ensures ValidBucket(id, Visit(b, roundBudget))
  {
    var r := Visit(b, roundBudget);
    forall f | f in r.queue
      ensures InLane(f, Stream(id)) && IsBulk(f)
    {
      assert f in b.queue;
    }
  }

  lemma PassKeepsValid(cfg: Config, s: Shared, order: seq<nat>)
    requires ValidShared(cfg, s) && IsOrder(order, s.buckets.Keys)
    ensures ValidShared(cfg, Pass(s, order, cfg.roundBudget))
  {
    var visited := VisitAll(s.buckets, cfg.roundBudget);
    forall k | k in visited
      ensures ValidBucket(k, visited[k]) && visited[k].queuedBytes <= s.buckets[k].queuedBytes
    {
      VisitKeepsValid(k, s.buckets[k], cfg.roundBudget);
    }
    PassBacklog(s.buckets, order, cfg.roundBudget, InBytes);
  }

  /** No bucket with a backlog is passed over: a pass that takes nothing found
      nothing, and leaves nothing. */
  lemma EmptyPassMeansNoBacklog(m: map<nat, Bucket>, order: seq<nat>, roundBudget: nat)
    requires ValidBuckets(m) && IsOrder(order, m.Keys) && PassBatch(m, order, roundBudget) == []
    ensures !AnyBacklog(m) && !AnyBacklog(Reap(VisitAll(m, roundBudget)))
  {
    forall k | k in m
      ensures m[k].queue == [] && Visit(m[k], roundBudget).queue == []
    {
      VisitAllBacklog(m, order, roundBudget, InFrames);
      assert k in m.Keys && k in order;
      var i :| 0 <= i < |order| && order[i] == k;
      ServedInBatch(m, order, roundBudget, i);
    }
  }

  lemma {:induction false} ServedInBatch(m: map<nat, Bucket>, order: seq<nat>, roundBudget: nat, i: nat)
    requires forall j :: 0 <= j < |order| ==> order[j] in m
    requires i < |order|
    ensures |Served(m[order[i]], roundBudget)| <= |PassBatch(m, order, roundBudget)|
  {
    if i == 0 {
    } else {
      ServedInBatch(m, order[1..], roundBudget, i - 1);
    }
  }

  lemma EnqueueKeepsValid(cfg: Config, s: Shared, f: Frame)
    requires ValidShared(cfg, s) && ValidConfig(cfg) && IsBulk(f)
    ensures ValidShared(cfg, EnqueueBucket(cfg, s, f))
  {
    var id := f.StreamId();
    var b := BucketOf(s, id);
    var next := EnqueueBucket(cfg, s, f);
    if !s.writerDone {
      BacklogUpdate(s.buckets, id, next.buckets[id], InBytes);
      BucketStaysValid(id, b, f);
    }
  }

  lemma BucketStaysValid(id: nat, b: Bucket, f: Frame)
    requires ValidBucket(id, b) && IsBulk(f) && f.StreamId() == id
    ensures ValidBucket(id, b.(queue := b.queue + [f], queuedBytes := b.queuedBytes + f.PayloadLen(), idlePasses := 0))
  {
    BytesConcat(b.queue, [f]);
  }

  /** The floors at work: a frame is only ever refused while something is queued. */
  lemma RefusedMeansBacklog(cfg: Config, s: Shared, f: Frame)
    requires ValidConfig(cfg) && ValidShared(cfg, s) && IsBulk(f) && !Fits(cfg, s, f)
    ensures AnyBacklog(s.buckets)
  {
    BacklogBound(s.buckets, InBytes);
    if Backlog(s.buckets, InBytes) > 0 {
      PositiveTotalMeansBacklog(s.buckets);
    }
  }
}
