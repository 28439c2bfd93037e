/** Connection teardown: one pass over a snapshot of the connection's keys ends
    exactly the streams touching it and yields one notice per ended stream. */
module RoutingTeardown {
  import opened Routing

  /** Legs whose stream involves none of the keys. */
  predicate Untouched(legs: Legs, keys: seq<RouteKey>, k: RouteKey) {
    k in legs && k !in keys && legs[k].peer !in keys
  }

  lemma {:induction false} TeardownAllKeepsRest(legs: Legs, keys: seq<RouteKey>)
    requires Mirrored(legs)
    ensures Mirrored(TeardownAll(legs, keys))
    ensures TeardownAll(legs, keys) == map k | k in legs && Untouched(legs, keys, k) :: legs[k]
    decreases |keys|
  {
    if keys == [] {
      assert legs == map k | k in legs && Untouched(legs, keys, k) :: legs[k];
    } else {
      var first := keys[0];
      var next := Teardown(legs, first);
      TeardownKeepsMirror(legs, first);
      TeardownAllKeepsRest(next, keys[1..]);
      forall k | k in legs
        ensures Untouched(legs, keys, k) <==> k in next && Untouched(next, keys[1..], k)
      {
        assert MirroredAt(legs, k);
        assert keys == [first] + keys[1..];
        if first in legs {
          assert MirroredAt(legs, first);
        }
      }
    }
  }

  /** Some turn removes the leg at `k`, as its own or as the peer it leads to. */
  predicate Removed(legs: Legs, torn: seq<RouteKey>, k: RouteKey) {
    exists i :: 0 <= i < |torn| && (torn[i] == k || LeadsTo(legs, torn[i], k))
  }

  predicate LeadsTo(legs: Legs, from: RouteKey, k: RouteKey) {
    from in legs && legs[from].peer == k
  }

  /** Mirrored or not: what a teardown leaves, in terms of the turns it took. */
  lemma {:induction false} TeardownAllExactly(legs: Legs, keys: seq<RouteKey>, k: RouteKey)
    ensures k in TeardownAll(legs, keys) <==> k in legs && !Removed(legs, TornDown(legs, keys), k)
    ensures k in TeardownAll(legs, keys) ==> k !in keys && TeardownAll(legs, keys)[k] == legs[k]
    ensures forall i :: 0 <= i < |TornDown(legs, keys)| ==> TornDown(legs, keys)[i] in keys && TornDown(legs, keys)[i] in legs
    decreases |keys|
  {
    if keys == [] {
    } else {
      var next := Teardown(legs, keys[0]);
      var torn, later := TornDown(legs, keys), TornDown(next, keys[1..]);
      TeardownAllExactly(next, keys[1..], k);
      if keys[0] in legs {
        assert torn == [keys[0]] + later;
        RemovedByFirst(legs, next, keys[0], later, k);
      } else {
        assert torn == later;
      }
    }
  }

  lemma RemovedByFirst(legs: Legs, next: Legs, first: RouteKey, later: seq<RouteKey>, k: RouteKey)
    requires first in legs && next == Teardown(legs, first)
    requires forall i :: 0 <= i < |later| ==> later[i] in next
    ensures Removed(legs, [first] + later, k) <==> k == first || legs[first].peer == k || Removed(next, later, k)
  {
    var torn := [first] + later;
    assert torn[0] == first;
    if Removed(next, later, k) {
      var i :| 0 <= i < |later| && (later[i] == k || LeadsTo(next, later[i], k));
      assert torn[i + 1] == later[i];
    }
    if Removed(legs, torn, k) {
      var i :| 0 <= i < |torn| && (torn[i] == k || LeadsTo(legs, torn[i], k));
      if i > 0 {
        assert later[i - 1] == torn[i];
      }
    }
  }

  /** The torn-down keys are keys of the snapshot with different streams. */
  ghost predicate Apart(legs: Legs, keys: seq<RouteKey>, torn: seq<RouteKey>)
    requires Mirrored(legs)
  {
    && (forall i :: 0 <= i < |torn| ==> torn[i] in legs && torn[i] in keys)
    && (forall i, j :: 0 <= i < j < |torn| ==> StreamAt(legs, torn[i]) != StreamAt(legs, torn[j]))
  }

  /** They name each stream touched by the snapshot exactly once. */
  ghost predicate OnePerStream(legs: Legs, keys: seq<RouteKey>, torn: seq<RouteKey>)
    requires Mirrored(legs)
  {
    && Apart(legs, keys, torn)
    && (forall k :: k in keys && k in legs ==> exists i :: 0 <= i < |torn| && StreamAt(legs, torn[i]) == StreamAt(legs, k))
  }

  lemma SurvivorStream(legs: Legs, key: RouteKey, k: RouteKey)
    requires Mirrored(legs) && k in legs
    ensures Mirrored(Teardown(legs, key))
    ensures k in Teardown(legs, key) ==> StreamAt(Teardown(legs, key), k) == StreamAt(legs, k)
    ensures key in legs ==> (k in Teardown(legs, key) <==> StreamAt(legs, k) != StreamAt(legs, key))
  {
    TeardownKeepsMirror(legs, key);
    assert MirroredAt(legs, k);
    if key in legs {
      assert MirroredAt(legs, key);
    }
  }

  lemma {:induction false} TornDownApart(legs: Legs, keys: seq<RouteKey>)
    requires Mirrored(legs)
    ensures Apart(legs, keys, TornDown(legs, keys))
    decreases |keys|
  {
    if keys == [] {
    } else {
      var first, next := keys[0], Teardown(legs, keys[0]);
      TeardownKeepsMirror(legs, first);
      TornDownApart(next, keys[1..]);
      var later := TornDown(next, keys[1..]);
      forall i | 0 <= i < |later|
        ensures later[i] in legs && later[i] in keys
        ensures StreamAt(next, later[i]) == StreamAt(legs, later[i])
        ensures first in legs ==> StreamAt(legs, later[i]) != StreamAt(legs, first)
      {
        SurvivorStream(legs, first, later[i]);
      }
    }
  }

  /** The turn that ended the stream of `k`. */
  lemma {:induction false} TornDownCovers(legs: Legs, keys: seq<RouteKey>, k: RouteKey) returns (i: nat)
    requires Mirrored(legs) && k in keys && k in legs
    ensures i < |TornDown(legs, keys)| && TornDown(legs, keys)[i] in legs
    ensures StreamAt(legs, TornDown(legs, keys)[i]) == StreamAt(legs, k)
    decreases |keys|
  {
    var first, rest := keys[0], keys[1..];
    var next := Teardown(legs, first);
    SurvivorStream(legs, first, k);
    if k in next {
      assert k in rest;
      var n := TornDownCovers(next, rest, k);
      SurvivorStream(legs, first, TornDown(next, rest)[n]);
      i := if first in legs then n + 1 else n;
    } else {
      i := 0;
    }
  }

  lemma TornDownOnePerStream(legs: Legs, keys: seq<RouteKey>)
    requires Mirrored(legs)
    ensures OnePerStream(legs, keys, TornDown(legs, keys))
  {
    TornDownApart(legs, keys);
    forall k | k in keys && k in legs
      ensures exists i :: 0 <= i < |TornDown(legs, keys)| && StreamAt(legs, TornDown(legs, keys)[i]) == StreamAt(legs, k)
    {
      var i := TornDownCovers(legs, keys, k);
    }
  }

  /** What the peer of a torn-down key is told: its link's queue, its own id. */
  function Notice(legs: Legs, k: RouteKey): (nat, nat)
    requires k in legs
  {
    (legs[k].outbound, legs[k].peer.stream)
  }

  /** The notice names the other end of the stream at `k`: its id there and, where legs
      name the queue of their peer's link, that link. */
  ghost predicate TellsPeer(legs: Legs, k: RouteKey, notice: (nat, nat))
    requires Mirrored(legs) && k in legs
  {
    exists e :: e != k && StreamAt(legs, k).ends == {k, e} && notice.1 == e.stream
      && ((forall l :: l in legs ==> legs[l].outbound == legs[l].peer.connection) ==> notice.0 == e.connection)
  }

  lemma NoticeTellsPeer(legs: Legs, k: RouteKey)
    requires Mirrored(legs) && k in legs
    ensures TellsPeer(legs, k, Notice(legs, k))
  {
    assert MirroredAt(legs, k);
    assert StreamAt(legs, k).ends == {k, legs[k].peer};
  }

  predicate Touches(t: TwoWay, connection: nat) {
    exists e :: e in t.ends && e.connection == connection
  }

  ghost predicate IsSnapshot(legs: Legs, connection: nat, keys: seq<RouteKey>) {
    forall k :: k in keys <==> k in legs && k.connection == connection
  }

  /** Teardown of a connection ends exactly the streams touching it, self-routes
      included, leaves every other leg as it was, and tells each ended stream's
      peer once. */
  lemma ConnectionTeardown(legs: Legs, connection: nat, keys: seq<RouteKey>)
    requires Mirrored(legs) && IsSnapshot(legs, connection, keys)
    ensures var after := TeardownAll(legs, keys); var torn := TornDown(legs, keys);
            && Mirrored(after)
            && Streams(after) == (set t | t in Streams(legs) && !Touches(t, connection))
            && (forall k :: k in after ==> k in legs && after[k] == legs[k])
            && OnePerStream(legs, keys, torn)
            && (forall t :: t in Streams(legs) && Touches(t, connection) ==>
                  exists i :: 0 <= i < |torn| && StreamAt(legs, torn[i]) == t)
  {
    var after, torn := TeardownAll(legs, keys), TornDown(legs, keys);
    TeardownAllKeepsRest(legs, keys);
    TornDownOnePerStream(legs, keys);
    forall t | t in Streams(legs)
      ensures t in Streams(after) <==> !Touches(t, connection)
      ensures Touches(t, connection) ==> exists i :: 0 <= i < |torn| && StreamAt(legs, torn[i]) == t
    {
      StreamSurvivesIffUntouched(legs, connection, keys, after, torn, t);
    }
    forall t | t in Streams(after)
      ensures t in Streams(legs)
    {
      var k :| k in after && t == StreamAt(after, k);
      assert MirroredAt(after, k);
      assert t == StreamAt(legs, k);
    }
  }

  /** What is left after the keys' streams are gone. */
  ghost predicate Remainder(legs: Legs, keys: seq<RouteKey>, after: Legs) {
    Mirrored(after) && after == map k | k in legs && Untouched(legs, keys, k) :: legs[k]
  }

  lemma TouchedStreamEnds(legs: Legs, connection: nat, keys: seq<RouteKey>, after: Legs, k: RouteKey)
    requires Mirrored(legs) && IsSnapshot(legs, connection, keys) && Remainder(legs, keys, after)
    requires k in legs && k.connection == connection
    ensures StreamAt(legs, k) !in Streams(after)
  {
    assert k in keys && k in StreamAt(legs, k).ends;
    forall t | t in Streams(after)
      ensures k !in t.ends
    {
      var j :| j in after && t == StreamAt(after, j);
      assert MirroredAt(after, j);
    }
  }

  lemma UntouchedStreamStays(legs: Legs, connection: nat, keys: seq<RouteKey>, after: Legs, k: RouteKey)
    requires Mirrored(legs) && IsSnapshot(legs, connection, keys) && Remainder(legs, keys, after)
    requires k in legs && k.connection != connection && legs[k].peer.connection != connection
    ensures StreamAt(legs, k) in Streams(after)
  {
    assert MirroredAt(legs, k);
    var p := legs[k].peer;
    assert k in after && p in after;
    StreamsContain(after, k);
  }

  lemma StreamSurvivesIffUntouched(legs: Legs, connection: nat, keys: seq<RouteKey>, after: Legs, torn: seq<RouteKey>, t: TwoWay)
    requires Mirrored(legs) && IsSnapshot(legs, connection, keys) && Remainder(legs, keys, after)
    requires OnePerStream(legs, keys, torn) && t in Streams(legs)
    ensures t in Streams(after) <==> !Touches(t, connection)
    ensures Touches(t, connection) ==> exists i :: 0 <= i < |torn| && StreamAt(legs, torn[i]) == t
  {
    var k :| k in legs && t == StreamAt(legs, k);
    assert MirroredAt(legs, k);
    if Touches(t, connection) {
      var e :| e in t.ends && e.connection == connection;
      assert e in legs && e in keys;
      StreamsContain(legs, e);
      TouchedStreamEnds(legs, connection, keys, after, e);
    } else {
      assert k in t.ends && legs[k].peer in t.ends;
      UntouchedStreamStays(legs, connection, keys, after, k);
    }
  }

  // ---------------------------------------------------------------------
  // The table as it runs

  class RoutingTable {
    var legs: map<RouteKey, RouteLeg>

    constructor ()
      ensures legs == map[] && Mirrored(legs)
    {
      legs := map[];
    }

    /** The two inserts overwrite whatever the endpoints held. */
    method OpenRoute(from: RouteKey, targetConnection: nat, targetStream: nat, targetOutbound: nat, fromOutbound: nat)
      returns (forward: RouteLeg)
      modifies this
      ensures var to := RouteKey(targetConnection, targetStream);
              && legs == Open(old(legs), from, to, targetOutbound, fromOutbound)
              && forward == RouteLeg(to, targetOutbound, false)
              && (Mirrored(old(legs)) && from != to && from !in old(legs) && to !in old(legs) ==>
                    Mirrored(legs) && Streams(legs) == Streams(old(legs)) + {TwoWay({from, to}, {})})
    {
      var to := RouteKey(targetConnection, targetStream);
      forward := RouteLeg(to, targetOutbound, false);
      var backward := RouteLeg(from, fromOutbound, false);
      if Mirrored(legs) && from != to && from !in legs && to !in legs {
        OpenAddsStream(legs, from, to, targetOutbound, fromOutbound);
      }
      legs := legs[from := forward];
      legs := legs[to := backward];
    }

    method LookupLeg(key: RouteKey) returns (found: Lookup)
      ensures found == Look(legs, key)
    {
      if key in legs {
        found := if legs[key].closed then ClosedLeg else OpenLeg(legs[key]);
      } else {
        found := UnknownLeg;
      }
    }

    method CloseLeg(key: RouteKey) returns (outcome: CloseOutcome)
      modifies this
      ensures legs == Close(old(legs), key)
      ensures outcome == CloseResult(old(legs), key)
    {
      if key !in legs {
        return UnknownStream;
      }
      if legs[key].closed {
        return Swallow;
      }
      legs := legs[key := legs[key].(closed := true)];
      var forward := legs[key];
      var peerClosed := if forward.peer in legs then legs[forward.peer].closed else true;
      if peerClosed {
        legs := legs - {key};
        legs := legs - {forward.peer};
      }
      outcome := Forward(forward);
    }

    method TeardownPair(key: RouteKey) returns (found: bool, leg: RouteLeg)
      modifies this
      ensures legs == Teardown(old(legs), key)
      ensures found <==> key in old(legs)
      ensures found ==> leg == old(legs)[key]
    {
      found, leg := key in legs, RouteLeg(key, 0, false);
      if found {
        leg := legs[key];
        legs := legs - {key};
        legs := legs - {leg.peer};
      }
    }

    method StreamCount() returns (count: nat)
      requires Mirrored(legs)
      ensures count == |Streams(legs)|
    {
      TwoLegsPerStream(legs);
      count := |legs| / 2;
    }

    method TeardownConnection(connection: nat) returns (peers: seq<(nat, nat)>, ghost torn: seq<RouteKey>)
      requires Mirrored(legs)
      modifies this
      ensures Mirrored(legs)
      ensures Streams(legs) == set t | t in Streams(old(legs)) && !Touches(t, connection)
      ensures |peers| == |torn|
      ensures forall i :: 0 <= i < |torn| ==> torn[i] in old(legs) && TellsPeer(old(legs), torn[i], peers[i])
      ensures forall i, j :: 0 <= i < j < |torn| ==> StreamAt(old(legs), torn[i]) != StreamAt(old(legs), torn[j])
      ensures forall t :: t in Streams(old(legs)) && Touches(t, connection) ==>
        exists i :: 0 <= i < |torn| && StreamAt(old(legs), torn[i]) == t
    {
      var keys := Snapshot(legs, connection);
      ghost var before := legs;
      ConnectionTeardown(before, connection, keys);
      torn := TornDown(before, keys);
      peers, legs := TeardownKeys(legs, keys);
      forall i | 0 <= i < |torn|
        ensures TellsPeer(before, torn[i], peers[i])
      {
        NoticeTellsPeer(before, torn[i]);
      }
    }
  }

  /** The connection's keys, in whatever order the map yields them. */
  method Snapshot(legs: Legs, connection: nat) returns (keys: seq<RouteKey>)
    ensures IsSnapshot(legs, connection, keys)
  {
    keys := [];
    var todo := legs.Keys;
    while todo != {}
      invariant todo <= legs.Keys
      invariant forall k :: k in keys <==> k in legs && k !in todo && k.connection == connection
      decreases todo
    {
      var k :| k in todo;
      if k.connection == connection {
        keys := keys + [k];
      }
      todo := todo - {k};
    }
  }

  lemma TeardownAllStep(legs: Legs, done: seq<RouteKey>, k: RouteKey)
    ensures TeardownAll(legs, done + [k]) == Teardown(TeardownAll(legs, done), k)
    ensures TornDown(legs, done + [k]) == TornDown(legs, done) + if k in TeardownAll(legs, done) then [k] else []
    decreases |done|
  {
    var longer := done + [k];
    if done == [] {
      assert longer[1..] == [];
    } else {
      assert longer[1..] == done[1..] + [k];
      TeardownAllStep(Teardown(legs, done[0]), done[1..], k);
    }
  }

  lemma {:induction false} TeardownAllShrinks(legs: Legs, keys: seq<RouteKey>)
    ensures forall k :: k in TeardownAll(legs, keys) ==> k in legs && TeardownAll(legs, keys)[k] == legs[k]
    ensures forall i :: 0 <= i < |TornDown(legs, keys)| ==> TornDown(legs, keys)[i] in legs
    decreases |keys|
  {
    if keys == [] {
    } else {
      TeardownAllShrinks(Teardown(legs, keys[0]), keys[1..]);
    }
  }

  /** The loop over the snapshot: a key still present drops both legs and queues
      a notice for its peer. */
  method TeardownKeys(legs: Legs, keys: seq<RouteKey>) returns (peers: seq<(nat, nat)>, after: Legs)
    ensures after == TeardownAll(legs, keys)
    ensures |peers| == |TornDown(legs, keys)|
    ensures forall i :: 0 <= i < |peers| ==>
      TornDown(legs, keys)[i] in legs && peers[i] == Notice(legs, TornDown(legs, keys)[i])
  {
    peers, after := [], legs;
    for n := 0 to |keys|
      invariant after == TeardownAll(legs, keys[..n])
      invariant |peers| == |TornDown(legs, keys[..n])|
      invariant forall i :: 0 <= i < |peers| ==>
        TornDown(legs, keys[..n])[i] in legs && peers[i] == Notice(legs, TornDown(legs, keys[..n])[i])
    {
      var key := keys[n];
      assert keys[..n + 1] == keys[..n] + [key];
      TeardownAllStep(legs, keys[..n], key);
      TeardownAllShrinks(legs, keys[..n]);
      if key in after {
        var leg := after[key];
        after := after - {key};
        after := after - {leg.peer};
        peers := peers + [(leg.outbound, leg.peer.stream)];
        assert after == TeardownAll(legs, keys[..n + 1]);
      }
    }
    assert keys[..|keys|] == keys;
  }
}
