/** Routed streams (src/infra/relay_routing.rs): pairs of mirrored legs in one
    map, and the set of two-way streams with independent half-close they stand
    for. */
module Routing {

  /** One endpoint: a link and the stream id as seen on it. */
  datatype RouteKey = RouteKey(connection: nat, stream: nat)

  /** `outbound` names the peer link's egress queue. */
  datatype RouteLeg = RouteLeg(peer: RouteKey, outbound: nat, closed: bool)

  type Legs = map<RouteKey, RouteLeg>

  datatype Lookup = OpenLeg(leg: RouteLeg) | ClosedLeg | UnknownLeg

  datatype CloseOutcome = Forward(leg: RouteLeg) | Swallow | UnknownStream

  // ---------------------------------------------------------------------
  // What each critical section computes

  function Open(legs: Legs, from: RouteKey, to: RouteKey, toOutbound: nat, fromOutbound: nat): Legs {
    legs[from := RouteLeg(to, toOutbound, false)][to := RouteLeg(from, fromOutbound, false)]
  }

  function Look(legs: Legs, key: RouteKey): Lookup {
    if key !in legs then UnknownLeg
    else if legs[key].closed then ClosedLeg
    else OpenLeg(legs[key])
  }

  function CloseResult(legs: Legs, key: RouteKey): CloseOutcome {
    if key !in legs then UnknownStream
    else if legs[key].closed then Swallow
    else Forward(legs[key].(closed := true))
  }

  /** A missing peer leg counts as closed. */
  function Close(legs: Legs, key: RouteKey): Legs {
    if key !in legs || legs[key].closed then legs
    else
      var marked := legs[key := legs[key].(closed := true)];
      var peer := legs[key].peer;
      if peer !in marked || marked[peer].closed then marked - {key, peer} else marked
  }

  function Teardown(legs: Legs, key: RouteKey): Legs {
    if key !in legs then legs else legs - {key, legs[key].peer}
  }

  /** Tearing down a snapshot of keys one by one; keys already gone are skipped. */
  function TeardownAll(legs: Legs, keys: seq<RouteKey>): Legs
    decreases |keys|
  {
    if keys == [] then legs else TeardownAll(Teardown(legs, keys[0]), keys[1..])
  }

  /** The keys whose turn still found a leg: each yields one notification. */
  function TornDown(legs: Legs, keys: seq<RouteKey>): seq<RouteKey>
    decreases |keys|
  {
    if keys == [] then []
    else (if keys[0] in legs then [keys[0]] else []) + TornDown(Teardown(legs, keys[0]), keys[1..])
  }

  // ---------------------------------------------------------------------
  // The mirror invariant

  predicate MirroredAt(legs: Legs, k: RouteKey)
    requires k in legs
  {
    var p := legs[k].peer;
    p in legs && p != k && legs[p].peer == k && !(legs[k].closed && legs[p].closed)
  }

  /** The legs form a fixed-point-free involution, and no pair is closed on both
      sides. */
  predicate Mirrored(legs: Legs) {
    forall k :: k in legs ==> MirroredAt(legs, k)
  }

  /** Overwriting endpoints keeps the mirror exactly when neither endpoint is in
      use by some other stream. */
  lemma OpenKeepsMirrorExactly(legs: Legs, from: RouteKey, to: RouteKey, toOutbound: nat, fromOutbound: nat)
    requires Mirrored(legs)
    ensures Mirrored(Open(legs, from, to, toOutbound, fromOutbound)) <==>
            && from != to
            && (from in legs ==> legs[from].peer == to)
            && (to in legs ==> legs[to].peer == from)
  {
    var after := Open(legs, from, to, toOutbound, fromOutbound);
    if from == to {
      assert !MirroredAt(after, from);
    } else if from in legs && legs[from].peer != to {
      assert MirroredAt(legs, from);
      assert !MirroredAt(after, legs[from].peer);
    } else if to in legs && legs[to].peer != from {
      assert MirroredAt(legs, to);
      assert !MirroredAt(after, legs[to].peer);
    } else {
      forall k | k in after
        ensures MirroredAt(after, k)
      {
        if k != from && k != to {
          assert MirroredAt(legs, k);
        }
      }
    }
  }

  lemma CloseKeepsMirror(legs: Legs, key: RouteKey)
    requires Mirrored(legs)
    ensures Mirrored(Close(legs, key))
  {
    var after := Close(legs, key);
    forall k | k in after
      ensures MirroredAt(after, k)
    {
      assert MirroredAt(legs, k);
      if key in legs {
        assert MirroredAt(legs, key);
      }
    }
  }

  lemma TeardownKeepsMirror(legs: Legs, key: RouteKey)
    requires Mirrored(legs)
    ensures Mirrored(Teardown(legs, key))
  {
    var after := Teardown(legs, key);
    forall k | k in after
      ensures MirroredAt(after, k)
    {
      assert MirroredAt(legs, k);
      if key in legs {
        assert MirroredAt(legs, key);
      }
    }
  }

  // ---------------------------------------------------------------------
  // The streams the legs stand for

  /** A two-way stream: its two endpoints, and those that have closed. */
  datatype TwoWay = TwoWay(ends: set<RouteKey>, closed: set<RouteKey>)

  function StreamAt(legs: Legs, k: RouteKey): TwoWay
    requires k in legs && legs[k].peer in legs
  {
    var p := legs[k].peer;
    TwoWay({k, p}, (if legs[k].closed then {k} else {}) + (if legs[p].closed then {p} else {}))
  }

  ghost function Streams(legs: Legs): set<TwoWay>
    requires Mirrored(legs)
  {
    set k | k in legs :: StreamAt(legs, k)
  }

  lemma StreamsContain(legs: Legs, k: RouteKey)
    requires Mirrored(legs) && k in legs
    ensures StreamAt(legs, k) in Streams(legs)
    ensures StreamAt(legs, legs[k].peer) == StreamAt(legs, k)
    ensures forall t :: t in Streams(legs) && k in t.ends ==> t == StreamAt(legs, k)
  {
    assert MirroredAt(legs, k);
    forall t | t in Streams(legs) && k in t.ends
      ensures t == StreamAt(legs, k)
    {
      var j :| j in legs && t == StreamAt(legs, j);
      assert MirroredAt(legs, j);
    }
  }

  lemma OpenAddsStream(legs: Legs, from: RouteKey, to: RouteKey, toOutbound: nat, fromOutbound: nat)
    requires Mirrored(legs) && from !in legs && to !in legs && from != to
    ensures Mirrored(Open(legs, from, to, toOutbound, fromOutbound))
    ensures Streams(Open(legs, from, to, toOutbound, fromOutbound)) == Streams(legs) + {TwoWay({from, to}, {})}
  {
    OpenKeepsMirrorExactly(legs, from, to, toOutbound, fromOutbound);
    var after := Open(legs, from, to, toOutbound, fromOutbound);
    var added := TwoWay({from, to}, {});
    assert StreamAt(after, from) == added && StreamAt(after, to) == added;
    forall k | k in legs
      ensures StreamAt(after, k) == StreamAt(legs, k)
    {
      assert MirroredAt(legs, k);
    }
    forall t | t in Streams(after)
      ensures t in Streams(legs) + {added}
    {
      var k :| k in after && t == StreamAt(after, k);
      if k in legs {
        assert t == StreamAt(legs, k);
      }
    }
    forall t | t in Streams(legs) + {added}
      ensures t in Streams(after)
    {
      if t in Streams(legs) {
        var k :| k in legs && t == StreamAt(legs, k);
        assert t == StreamAt(after, k);
      }
    }
  }

  /** Removing both legs of a stream removes that stream and no other. */
  lemma TeardownRemovesStream(legs: Legs, key: RouteKey)
    requires Mirrored(legs) && key in legs
    ensures Mirrored(Teardown(legs, key))
    ensures Streams(Teardown(legs, key)) == Streams(legs) - {StreamAt(legs, key)}
  {
    TeardownKeepsMirror(legs, key);
    var after := Teardown(legs, key);
    var gone := StreamAt(legs, key);
    assert MirroredAt(legs, key);
    forall k | k in after
      ensures StreamAt(after, k) == StreamAt(legs, k) != gone
    {
      assert MirroredAt(legs, k);
    }
    forall t | t in Streams(legs) && t != gone
      ensures t in Streams(after)
    {
      var k :| k in legs && t == StreamAt(legs, k);
      StreamsContain(legs, key);
      assert k in after;
      assert t == StreamAt(after, k);
    }
    forall t | t in Streams(after)
      ensures t in Streams(legs) && t != gone
    {
      var k :| k in after && t == StreamAt(after, k);
    }
  }

  /** `stream_count` is exact: two legs per stream. */
  lemma {:induction false} TwoLegsPerStream(legs: Legs)
    requires Mirrored(legs)
    ensures |legs| == 2 * |Streams(legs)|
    decreases |legs|
  {
    if legs == map[] {
      assert Streams(legs) == {};
    } else {
      var k :| k in legs;
      TeardownRemovesStream(legs, k);
      StreamsContain(legs, k);
      TeardownRemovesTwoLegs(legs, k);
      TwoLegsPerStream(Teardown(legs, k));
    }
  }

  lemma TeardownRemovesTwoLegs(legs: Legs, k: RouteKey)
    requires Mirrored(legs) && k in legs
    ensures |Teardown(legs, k)| == |legs| - 2
  {
    assert MirroredAt(legs, k);
    var pair := {k, legs[k].peer};
    assert |pair| == 2 && pair <= legs.Keys;
    assert Teardown(legs, k).Keys == legs.Keys - pair;
  }

  /** Half-close: the first close of an end marks it, the close of the last open
      end ends the stream, and a repeated close changes nothing. */
  lemma CloseRefinesHalfClose(legs: Legs, key: RouteKey)
    requires Mirrored(legs)
    ensures Mirrored(Close(legs, key))
    ensures key in legs ==>
      var t := StreamAt(legs, key);
      Streams(Close(legs, key)) ==
        if key in t.closed then Streams(legs)
        else if t.closed == {} then Streams(legs) - {t} + {t.(closed := {key})}
        else Streams(legs) - {t}
    ensures key !in legs ==> Close(legs, key) == legs
    ensures CloseResult(legs, key).UnknownStream? <==> forall t :: t in Streams(legs) ==> key !in t.ends
    ensures CloseResult(legs, key).Swallow? <==> exists t :: t in Streams(legs) && key in t.closed
    ensures CloseResult(legs, key).Forward? ==>
      exists t :: t in Streams(legs) && t.ends == {key, CloseResult(legs, key).leg.peer} && key !in t.closed
  {
    LookRefines(legs, key);
    CloseKeepsMirror(legs, key);
    if key in legs && !legs[key].closed {
      assert MirroredAt(legs, key);
      if legs[legs[key].peer].closed {
        TeardownRemovesStream(legs, key);
        assert Close(legs, key) == Teardown(legs, key);
      } else {
        MarkRefines(legs, key);
      }
    }
  }

  lemma MarkRefines(legs: Legs, key: RouteKey)
    requires Mirrored(legs) && key in legs && !legs[key].closed && !legs[legs[key].peer].closed
    requires Mirrored(Close(legs, key))
    ensures var t := StreamAt(legs, key);
            Streams(Close(legs, key)) == Streams(legs) - {t} + {t.(closed := {key})}
  {
    var after := Close(legs, key);
    var t := StreamAt(legs, key);
    var u := t.(closed := {key});
    var p := legs[key].peer;
    assert MirroredAt(legs, key);
    assert after == legs[key := legs[key].(closed := true)];
    assert StreamAt(after, key) == u && StreamAt(after, p) == u;
    forall k | k in legs && k != key && k != p
      ensures StreamAt(after, k) == StreamAt(legs, k) != t
    {
      assert MirroredAt(legs, k);
    }
    forall s | s in Streams(after)
      ensures s in Streams(legs) - {t} + {u}
    {
      var k :| k in after && s == StreamAt(after, k);
      if k != key && k != p {
        assert s == StreamAt(legs, k);
      }
    }
    forall s | s in Streams(legs) - {t} + {u}
      ensures s in Streams(after)
    {
      if s != u {
        var k :| k in legs && s == StreamAt(legs, k);
        StreamsContain(legs, key);
        assert s == StreamAt(after, k);
      }
    }
  }

  /** What a lookup answers, in terms of the streams. */
  lemma LookRefines(legs: Legs, key: RouteKey)
    requires Mirrored(legs)
    ensures Look(legs, key).UnknownLeg? <==> forall t :: t in Streams(legs) ==> key !in t.ends
    ensures Look(legs, key).ClosedLeg? <==> exists t :: t in Streams(legs) && key in t.closed
    ensures Look(legs, key).OpenLeg? ==>
      exists t :: t in Streams(legs) && t.ends == {key, Look(legs, key).leg.peer} && key !in t.closed
  {
    if key in legs {
      StreamsContain(legs, key);
      assert MirroredAt(legs, key);
      var t := StreamAt(legs, key);
      assert t in Streams(legs) && t.ends == {key, legs[key].peer};
      assert key in t.closed <==> legs[key].closed;
      forall t | t in Streams(legs) && key in t.closed
        ensures t == StreamAt(legs, key)
      {
        var j :| j in legs && t == StreamAt(legs, j);
        assert MirroredAt(legs, j);
      }
    } else {
      forall t | t in Streams(legs)
        ensures key !in t.ends && key !in t.closed
      {
        var j :| j in legs && t == StreamAt(legs, j);
        assert MirroredAt(legs, j);
      }
    }
  }

  /** With an end still in use by another stream the mirror breaks: reopening `from`
      towards another peer leaves the old peer's leg without its mirror. */
  lemma OverwriteBreaksMirror(from: RouteKey, first: RouteKey, second: RouteKey)
    requires from != first && from != second && first != second
    ensures var once := Open(map[], from, first, first.connection, from.connection);
            Mirrored(once) && !Mirrored(Open(once, from, second, second.connection, from.connection))
  {
    var once := Open(map[], from, first, first.connection, from.connection);
    OpenKeepsMirrorExactly(map[], from, first, first.connection, from.connection);
    OpenKeepsMirrorExactly(once, from, second, second.connection, from.connection);
  }

  // ---------------------------------------------------------------------
  // Ids the relay allocates

  /** The id handed out by a link's 32-bit allocator after `n` earlier ones: it
      starts at 2 and steps by 2, wrapping around. */
  function AllocatedId(n: nat): nat {
    (2 + 2 * n) % 0x1_0000_0000
  }

  /** How many ids the allocator yields before the first repeats. */
  const DISTINCT_IDS: nat := 0x8000_0000

  /** Two allocations on a link collide exactly when a whole cycle lies between. */
  lemma AllocatedIdsCollideExactly(i: nat, j: nat)
    requires i <= j
    ensures AllocatedId(i) == AllocatedId(j) <==> (j - i) % DISTINCT_IDS == 0
  {
    var x, y := 2 + 2 * i, 2 + 2 * j;
    var m := 0x1_0000_0000;
    assert x == m * (x / m) + x % m && y == m * (y / m) + y % m;
    if x % m == y % m {
      assert j - i == DISTINCT_IDS * (y / m - x / m);
      MultipleHasNoRemainder(y / m - x / m);
    }
    if (j - i) % DISTINCT_IDS == 0 {
      var q := (j - i) / DISTINCT_IDS;
      assert y == x + m * q;
      assert y == m * (x / m + q) + x % m;
    }
  }

  lemma MultipleHasNoRemainder(q: int)
    ensures (DISTINCT_IDS * q) % DISTINCT_IDS == 0
  {
  }
}
