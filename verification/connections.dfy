/** The connection table and the presence hub
    (src/infra/relay_connection_table.rs, src/infra/relay_presence.rs). */
module Connections {

  /** One registered link; `connection` is unique to it. */
  datatype Entry = Entry(connection: nat, outbound: nat, lastSeen: int, labels: seq<string>)

  type Entries = map<string, Entry>

  // ---------------------------------------------------------------------
  // What each critical section computes

  predicate Owns(entries: Entries, node: string, connection: nat) {
    node in entries && entries[node].connection == connection
  }

  function Touched(entries: Entries, node: string, connection: nat, now: int): Entries {
    if Owns(entries, node, connection) then entries[node := entries[node].(lastSeen := now)] else entries
  }

  function Labelled(entries: Entries, node: string, connection: nat, labels: seq<string>): Entries {
    if Owns(entries, node, connection) then entries[node := entries[node].(labels := labels)] else entries
  }

  predicate Idle(e: Entry, now: int, maxIdle: nat) {
    now - e.lastSeen >= maxIdle
  }

  function IdleNodes(entries: Entries, now: int, maxIdle: nat): set<string> {
    set n | n in entries && Idle(entries[n], now, maxIdle)
  }

  /** What a sweep leaves. */
  function Swept(entries: Entries, now: int, maxIdle: nat): Entries {
    entries - IdleNodes(entries, now, maxIdle)
  }

  datatype Sweep = Sweep(now: int, maxIdle: nat)

  function SweptAll(entries: Entries, sweeps: seq<Sweep>): Entries
    decreases |sweeps|
  {
    if sweeps == [] then entries else SweptAll(Swept(entries, sweeps[0].now, sweeps[0].maxIdle), sweeps[1..])
  }

  lemma {:induction false} SurvivesSweeps(entries: Entries, sweeps: seq<Sweep>, node: string)
    requires node in entries
    ensures node in SweptAll(entries, sweeps) <==>
            forall i :: 0 <= i < |sweeps| ==> sweeps[i].now - entries[node].lastSeen < sweeps[i].maxIdle
    ensures node in SweptAll(entries, sweeps) ==> SweptAll(entries, sweeps)[node] == entries[node]
    decreases |sweeps|
  {
    if sweeps == [] {
    } else {
      var next := Swept(entries, sweeps[0].now, sweeps[0].maxIdle);
      if node in next {
        SurvivesSweeps(next, sweeps[1..], node);
        assert forall i :: 0 < i < |sweeps| ==> sweeps[i] == sweeps[1..][i - 1];
        assert forall i :: 0 <= i < |sweeps| - 1 ==> sweeps[1..][i] == sweeps[i + 1];
      } else {
        GoneStaysGone(next, sweeps[1..], node);
        assert sweeps[0].now - entries[node].lastSeen >= sweeps[0].maxIdle;
      }
    }
  }

  lemma {:induction false} GoneStaysGone(entries: Entries, sweeps: seq<Sweep>, node: string)
    requires node !in entries
    ensures node !in SweptAll(entries, sweeps)
    decreases |sweeps|
  {
    if sweeps == [] {
    } else {
      GoneStaysGone(Swept(entries, sweeps[0].now, sweeps[0].maxIdle), sweeps[1..], node);
    }
  }

  /** A node whose own link was heard from at time `t` stays through the sweeps that
      follow if and only if each comes within its limit of `t`; a link that does not own
      the entry does not prolong it. */
  lemma HeartbeatKeepsExactly(entries: Entries, node: string, c: nat, t: int, sweeps: seq<Sweep>)
    requires node in entries
    ensures var heard := if entries[node].connection == c then t else entries[node].lastSeen;
            node in SweptAll(Touched(entries, node, c, t), sweeps) <==>
            forall i :: 0 <= i < |sweeps| ==> sweeps[i].now - heard < sweeps[i].maxIdle
  {
    SurvivesSweeps(Touched(entries, node, c, t), sweeps, node);
  }

  /** Ids already handed out are below the counter, and no two entries share one. */
  predicate UniqueIds(entries: Entries, nextConnection: nat) {
    && (forall n :: n in entries ==> entries[n].connection < nextConnection)
    && (forall m, n :: m in entries && n in entries && m != n ==> entries[m].connection != entries[n].connection)
  }

  // Watch interests: target node to watching connections to their queues.

  type Watchers = map<string, map<nat, nat>>

  predicate Watches(w: Watchers, target: string, connection: nat) {
    target in w && connection in w[target]
  }

  function Subscribed(w: Watchers, target: string, connection: nat, outbound: nat): Watchers {
    var interests := if target in w then w[target] else map[];
    w[target := interests[connection := outbound]]
  }

  function Unsubscribed(w: Watchers, connection: nat): Watchers {
    map t | t in w && w[t] - {connection} != map[] :: w[t] - {connection}
  }

  function WatchersOf(w: Watchers, node: string): set<nat> {
    if node in w then w[node].Keys else {}
  }

  // Link queues: presence notices are queued best-effort.

  type Notice = (string, bool)

  function Mail<T>(inbox: map<nat, seq<T>>, queue: nat): seq<T> {
    if queue in inbox then inbox[queue] else []
  }

  /** One message to each of these queues; the full ones drop it. */
  function Post<T>(inbox: map<nat, seq<T>>, to: set<nat>, full: set<nat>, n: T): map<nat, seq<T>> {
    map q | q in inbox.Keys + to :: if q in to && q !in full then Mail(inbox, q) + [n] else Mail(inbox, q)
  }

  /** Every queue gets the message at most once, behind what it had: exactly those named
      that are not full. */
  lemma PostDelivers<T>(inbox: map<nat, seq<T>>, to: set<nat>, full: set<nat>, n: T, q: nat)
    ensures q in to && q !in full ==> Mail(Post(inbox, to, full, n), q) == Mail(inbox, q) + [n]
    ensures q !in to || q in full ==> Mail(Post(inbox, to, full, n), q) == Mail(inbox, q)
  {
  }

  lemma PostOneMore<T>(inbox: map<nat, seq<T>>, done: set<nat>, queue: nat, full: set<nat>, n: T)
    requires queue !in done
    ensures Post(Post(inbox, done, full, n), {queue}, full, n) == Post(inbox, done + {queue}, full, n)
  {
  }

  /** Purging a connection ends its interests and nobody else's. */
  lemma UnsubscribedExactly(w: Watchers, connection: nat, target: string, other: nat)
    ensures Watches(Unsubscribed(w, connection), target, other) <==> Watches(w, target, other) && other != connection
  {
    if Watches(w, target, other) && other != connection {
      assert other in w[target] - {connection};
    }
  }

  // ---------------------------------------------------------------------
  // The table as it runs

  class RelayConnectionTable {
    var entries: map<string, Entry>
    var nextConnection: nat
    var notices: map<nat, seq<nat>> // error codes queued on each link
    var retired: set<nat> // links told to retire

    ghost predicate Valid()
      reads this
    {
      UniqueIds(entries, nextConnection)
    }

    constructor ()
      ensures Valid() && entries == map[] && nextConnection == 0 && notices == map[] && retired == {}
    {
      entries, nextConnection, notices, retired := map[], 0, map[], {};
    }

    /** A fresh id replaces whatever entry the node had and hands it back. */
    method Register(node: string, outbound: nat, now: int) returns (connection: nat, replaced: bool, previous: Entry)
      requires Valid()
      modifies this`entries, this`nextConnection
      ensures Valid()
      ensures connection == old(nextConnection) && nextConnection == connection + 1
      ensures entries == old(entries)[node := Entry(connection, outbound, now, [])]
      ensures replaced <==> node in old(entries)
      ensures replaced ==> previous == old(entries)[node] && previous.connection < connection
    {
      connection := nextConnection;
      nextConnection := nextConnection + 1;
      var entry := Entry(connection, outbound, now, []);
      replaced, previous := node in entries, entry;
      if replaced {
        previous := entries[node];
      }
      entries := entries[node := entry];
    }

    method Touch(node: string, connection: nat, now: int)
      requires Valid()
      modifies this`entries
      ensures Valid() && entries == Touched(old(entries), node, connection, now)
      ensures forall n :: n in old(entries) && (n != node || old(entries)[n].connection != connection) ==>
        n in entries && entries[n] == old(entries)[n]
      ensures node in old(entries) && old(entries)[node].connection == connection ==>
        node in entries && entries[node] == old(entries)[node].(lastSeen := now)
    {
      if node !in entries {
        return;
      }
      if entries[node].connection != connection {
        return;
      }
      entries := entries[node := entries[node].(lastSeen := now)];
    }

    method SetLabels(node: string, connection: nat, labels: seq<string>)
      requires Valid()
      modifies this`entries
      ensures Valid() && entries == Labelled(old(entries), node, connection, labels)
      ensures forall n :: n in old(entries) && (n != node || old(entries)[n].connection != connection) ==>
        n in entries && entries[n] == old(entries)[n]
      ensures node in old(entries) && old(entries)[node].connection == connection ==>
        node in entries && entries[node] == old(entries)[node].(labels := labels)
    {
      if node in entries {
        if entries[node].connection == connection {
          entries := entries[node := entries[node].(labels := labels)];
        }
      }
    }

    method RemoveIfCurrent(node: string, connection: nat) returns (removed: bool)
      requires Valid()
      modifies this`entries
      ensures Valid() && entries == if removed then old(entries) - {node} else old(entries)
      ensures removed <==> node in old(entries) && old(entries)[node].connection == connection
    {
      removed := node in entries && entries[node].connection == connection;
      if removed {
        entries := entries - {node};
      }
    }

    /** Removal by node id alone, whichever link owns the entry: the link's queue gets
        the error code unless it is full, and the link is told to retire. */
    method RetireNotifying(node: string, code: nat, full: set<nat>) returns (gone: bool)
      requires Valid()
      modifies this`entries, this`notices, this`retired
      ensures Valid() && entries == old(entries) - {node}
      ensures gone <==> node in old(entries)
      ensures gone ==>
        var entry := old(entries)[node];
        notices == Post(old(notices), {entry.outbound}, full, code) && retired == old(retired) + {entry.connection}
      ensures !gone ==> notices == old(notices) && retired == old(retired)
    {
      gone := node in entries;
      if gone {
        var entry := entries[node];
        entries := entries - {node};
        if entry.outbound in full {
          notices := notices[entry.outbound := Mail(notices, entry.outbound)];
        } else {
          notices := notices[entry.outbound := Mail(notices, entry.outbound) + [code]];
        }
        retired := retired + {entry.connection};
      } else {
        assert entries - {node} == entries;
      }
    }

    /** Takes out every entry silent for at least `maxIdle`, and only those. */
    method EvictIdle(now: int, maxIdle: nat) returns (evicted: map<string, Entry>)
      requires Valid()
      modifies this`entries
      ensures Valid()
      ensures forall n :: n in evicted <==> n in old(entries) && now - old(entries)[n].lastSeen >= maxIdle
      ensures forall n :: n in evicted ==> evicted[n] == old(entries)[n]
      ensures entries == Swept(old(entries), now, maxIdle) == old(entries) - evicted.Keys
    {
      evicted := map[];
      ghost var before := entries;
      var idle := IdleNodes(entries, now, maxIdle);
      ghost var done: set<string> := {};
      while idle != {}
        invariant idle + done == IdleNodes(before, now, maxIdle) && idle !! done
        invariant entries == before - done
        invariant evicted.Keys == done && forall n :: n in done ==> evicted[n] == before[n]
        decreases idle
      {
        var node :| node in idle;
        evicted := evicted[node := entries[node]];
        entries := entries - {node};
        idle := idle - {node};
        done := done + {node};
      }
    }
  }

  // ---------------------------------------------------------------------
  // The hub as it runs

  class PresenceHub {
    var watchers: map<string, map<nat, nat>>
    var inbox: map<nat, seq<Notice>>

    /** Every watcher is recorded with its own link's queue. */
    ghost predicate Valid()
      reads this
    {
      forall t, c :: t in watchers && c in watchers[t] ==> watchers[t][c] == c
    }

    constructor ()
      ensures Valid() && watchers == map[] && inbox == map[]
    {
      watchers, inbox := map[], map[];
    }

    /** Records the interest; then the link's queue gets one replay, or drops it. */
    method Watch(connection: nat, target: string, currentlyOnline: bool, full: set<nat>)
      requires Valid()
      modifies this
      ensures Valid() && watchers == Subscribed(old(watchers), target, connection, connection)
      ensures inbox == Post(old(inbox), {connection}, full, (target, currentlyOnline))
    {
      if target !in watchers {
        watchers := watchers[target := map[]];
      }
      var interests: map<nat, nat> := watchers[target];
      interests := interests[connection := connection];
      watchers := watchers[target := interests];
      Send(connection, (target, currentlyOnline), full);
    }

    /** `try_send`: a full queue drops the notice. */
    method Send(queue: nat, n: Notice, full: set<nat>)
      modifies this`inbox
      ensures inbox == Post(old(inbox), {queue}, full, n)
    {
      if queue in full {
        inbox := inbox[queue := Mail(inbox, queue)];
      } else {
        inbox := inbox[queue := Mail(inbox, queue) + [n]];
      }
    }

    method UnwatchConnection(connection: nat)
      requires Valid()
      modifies this`watchers
      ensures Valid() && watchers == Unsubscribed(old(watchers), connection)
    {
      var kept: map<string, map<nat, nat>> := map[];
      var todo := watchers.Keys;
      while todo != {}
        invariant todo <= watchers.Keys && watchers == old(watchers)
        invariant kept == map t | t in watchers && t !in todo && watchers[t] - {connection} != map[] :: watchers[t] - {connection}
        decreases todo
      {
        var target :| target in todo;
        var interests := watchers[target] - {connection};
        if interests != map[] {
          kept := kept[target := interests];
        }
        todo := todo - {target};
      }
      watchers := kept;
    }

    /** A transition goes once to the queue of every watcher of the node. */
    method Publish(node: string, online: bool, full: set<nat>)
      requires Valid()
      modifies this`inbox
      ensures inbox == Post(old(inbox), WatchersOf(watchers, node), full, (node, online))
    {
      var senders: map<nat, nat> := if node in watchers then watchers[node] else map[];
      ghost var before, done := inbox, {};
      var todo := senders.Keys;
      assert Post(before, {}, full, (node, online)) == before;
      while todo != {}
        invariant todo <= senders.Keys && done == senders.Keys - todo
        invariant inbox == Post(before, done, full, (node, online))
        decreases todo
      {
        var connection :| connection in todo;
        PostOneMore(before, done, connection, full, (node, online));
        Send(senders[connection], (node, online), full);
        todo := todo - {connection};
        done := done + {connection};
      }
    }
  }
}
