/** The limits of the fairness promise, visit by visit: credit survives an emptied
    bucket, so what one visit may send depends on what the bucket saved. */
module SchedulerBurst {
  import opened Frames
  import opened Scheduler

  predicate QueueOf(id: nat, q: seq<Frame>) {
    forall f :: f in q ==> InLane(f, Stream(id)) && IsBulk(f)
  }

  /** A queue some bucket can hold. */
  predicate Holds(id: nat, q: seq<Frame>, bucketCapacity: nat) {
    QueueOf(id, q) && Bytes(q) <= bucketCapacity
  }

  /** What one visit sends of queue `q` when the bucket holds this much credit. */
  function Burst(q: seq<Frame>, credit: int, roundBudget: nat): nat {
    Bytes(Served(Bucket(q, Bytes(q), credit, 0), roundBudget))
  }

  lemma BurstWithinQueue(q: seq<Frame>, credit: int, roundBudget: nat)
    ensures Burst(q, credit, roundBudget) <= Bytes(q)
  {
    BytesSplit(q, ServedCount(Bucket(q, Bytes(q), credit, 0), roundBudget));
  }

  /** A visit spends its credit, or sends a single frame. */
  lemma BurstBound(id: nat, q: seq<Frame>, credit: int, roundBudget: nat)
    requires QueueOf(id, q)
    ensures Burst(q, credit, roundBudget) <= credit + roundBudget || Burst(q, credit, roundBudget) <= MAX_FRAME_PAYLOAD
  {
    var n := Affordable(q, credit + roundBudget);
    if n == 0 && q != [] {
      assert Bytes(q[..1]) == q[0].PayloadLen();
      assert q[0] in q;
    }
  }

  function Ones(id: nat, n: nat): (q: seq<Frame>)
    ensures |q| == n && QueueOf(id, q) && Bytes(q) == n
  {
    if n == 0 then [] else [Data(id, [0])] + Ones(id, n - 1)
  }

  lemma {:induction false} AffordAll(q: seq<Frame>, credit: int)
    requires Bytes(q) <= credit
    ensures Affordable(q, credit) == |q|
  {
    if q == [] {
    } else {
      AffordAll(q[1..], credit - q[0].PayloadLen());
    }
  }

  lemma SpendAll(q: seq<Frame>, credit: int, roundBudget: nat)
    requires Bytes(q) <= credit + roundBudget
    ensures Burst(q, credit, roundBudget) == Bytes(q)
  {
    ServedWhole(Bucket(q, Bytes(q), credit, 0), roundBudget);
  }

  lemma ServedWhole(b: Bucket, roundBudget: nat)
    requires Bytes(b.queue) <= b.deficit + roundBudget
    ensures Served(b, roundBudget) == b.queue
  {
    AffordAll(b.queue, b.deficit + roundBudget);
    assert b.queue[..|b.queue|] == b.queue;
  }

  /** The largest frame a stream can send. */
  function Largest(id: nat): (f: Frame)
    ensures InLane(f, Stream(id)) && IsBulk(f) && f.PayloadLen() == MAX_FRAME_PAYLOAD
  {
    Data(id, seq(MAX_FRAME_PAYLOAD, _ => 0))
  }

  lemma OneFrameBurst(f: Frame, credit: int, roundBudget: nat)
    ensures Burst([f], credit, roundBudget) == f.PayloadLen()
  {
    assert Bytes([f]) == f.PayloadLen();
    assert [f][..1] == [f];
  }

  // ---------------------------------------------------------------------
  // Ahead of another stream

  /** A visit to `a` never sends more than the round budget beyond what a visit to
      the backlogged `b` sends. */
  ghost predicate NeverAheadFrom(a: nat, b: nat, creditA: int, creditB: int, roundBudget: nat, bucketCapacity: nat) {
    forall qa, qb :: Holds(a, qa, bucketCapacity) && Holds(b, qb, bucketCapacity) && qb != [] ==>
      Burst(qa, creditA, roundBudget) <= Burst(qb, creditB, roundBudget) + roundBudget
  }

  /** A queue that gets ahead of one empty frame whenever the condition fails. */
  function Overlong(id: nat, roundBudget: nat): (q: seq<Frame>)
    ensures QueueOf(id, q) && q != [] && Bytes(q) == Max(MAX_FRAME_PAYLOAD, roundBudget + 1)
  {
    if roundBudget < MAX_FRAME_PAYLOAD then
      assert Bytes([Largest(id)]) == MAX_FRAME_PAYLOAD;
      [Largest(id)]
    else Ones(id, roundBudget + 1)
  }

  lemma OverlongBurst(id: nat, credit: int, roundBudget: nat)
    requires roundBudget < MAX_FRAME_PAYLOAD || credit > 0
    ensures Burst(Overlong(id, roundBudget), credit, roundBudget) > roundBudget
  {
    if roundBudget < MAX_FRAME_PAYLOAD {
      OneFrameBurst(Largest(id), credit, roundBudget);
    } else {
      SpendAll(Ones(id, roundBudget + 1), credit, roundBudget);
    }
  }

  /** Exactly when: the budget covers a frame, and the stream either has no credit
      saved or a bucket too small to spend it. */
  lemma NeverAheadFromExactly(a: nat, b: nat, creditA: int, creditB: int, roundBudget: nat, bucketCapacity: nat)
    requires MAX_FRAME_PAYLOAD <= bucketCapacity
    ensures NeverAheadFrom(a, b, creditA, creditB, roundBudget, bucketCapacity) <==>
            MAX_FRAME_PAYLOAD <= roundBudget && (creditA <= 0 || bucketCapacity <= roundBudget)
  {
    if MAX_FRAME_PAYLOAD <= roundBudget && (creditA <= 0 || bucketCapacity <= roundBudget) {
      forall qa, qb | Holds(a, qa, bucketCapacity) && Holds(b, qb, bucketCapacity) && qb != []
        ensures Burst(qa, creditA, roundBudget) <= Burst(qb, creditB, roundBudget) + roundBudget
      {
        BurstBound(a, qa, creditA, roundBudget);
        BurstWithinQueue(qa, creditA, roundBudget);
      }
    } else {
      var qa, qb := Overlong(a, roundBudget), [Close(b)];
      OverlongBurst(a, creditA, roundBudget);
      OneFrameBurst(Close(b), creditB, roundBudget);
      assert Bytes(qb) == 0;
      assert Holds(a, qa, bucketCapacity) && Holds(b, qb, bucketCapacity);
      assert !(Burst(qa, creditA, roundBudget) <= Burst(qb, creditB, roundBudget) + roundBudget);
    }
  }

  // ---------------------------------------------------------------------
  // The budget and one frame

  ghost predicate RoundLimitedFrom(id: nat, credit: int, roundBudget: nat, bucketCapacity: nat) {
    forall q :: Holds(id, q, bucketCapacity) ==> Burst(q, credit, roundBudget) <= roundBudget + MAX_FRAME_PAYLOAD
  }

  /** A visit is limited to the round budget and one frame exactly when the bucket
      enters it with at most one frame of credit or cannot hold more. */
  lemma RoundLimitedFromExactly(id: nat, credit: int, roundBudget: nat, bucketCapacity: nat)
    ensures RoundLimitedFrom(id, credit, roundBudget, bucketCapacity) <==>
            credit <= MAX_FRAME_PAYLOAD || bucketCapacity <= roundBudget + MAX_FRAME_PAYLOAD
  {
    if credit <= MAX_FRAME_PAYLOAD || bucketCapacity <= roundBudget + MAX_FRAME_PAYLOAD {
      forall q | Holds(id, q, bucketCapacity)
        ensures Burst(q, credit, roundBudget) <= roundBudget + MAX_FRAME_PAYLOAD
      {
        BurstBound(id, q, credit, roundBudget);
        BurstWithinQueue(q, credit, roundBudget);
      }
    } else {
      var q := Ones(id, roundBudget + MAX_FRAME_PAYLOAD + 1);
      SpendAll(q, credit, roundBudget);
      assert Holds(id, q, bucketCapacity);
      assert !(Burst(q, credit, roundBudget) <= roundBudget + MAX_FRAME_PAYLOAD);
    }
  }
}
