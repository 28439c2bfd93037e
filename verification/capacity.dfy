/** Admission control (src/infra/relay_capacity.rs) under concurrency: the check
    and the change it admits are separate critical sections of separate link
    tasks (src/infra/relay_link.rs), so the limits can be overshot, by a known
    amount. */
module Capacity {
  import R = Routing

  datatype Limits = Limits(maxNodes: nat, maxStreams: nat, maxThroughput: nat)

  datatype OpenAdmission = Allow | StreamsFull | ThroughputExceeded

  function AdmitOpen(l: Limits, activeStreams: nat, bytesThisWindow: nat): OpenAdmission {
    if activeStreams >= l.maxStreams then StreamsFull
    else if bytesThisWindow >= l.maxThroughput then ThroughputExceeded
    else Allow
  }

  predicate AdmitRegister(l: Limits, registeredNodes: nat) {
    registeredNodes < l.maxNodes
  }

  /** An open is let through exactly below both limits; a full table is named before the
      throughput is. */
  lemma AdmissionExactly(l: Limits, activeStreams: nat, bytesThisWindow: nat)
    ensures AdmitOpen(l, activeStreams, bytesThisWindow).Allow? <==>
            activeStreams < l.maxStreams && bytesThisWindow < l.maxThroughput
    ensures AdmitOpen(l, activeStreams, bytesThisWindow).StreamsFull? <==> l.maxStreams <= activeStreams
    ensures AdmitRegister(l, activeStreams) <==> activeStreams < l.maxNodes
  {
  }

  // ---------------------------------------------------------------------
  // Link tasks, one critical section per step

  /** A link registers at most once, then serves until it leaves; one open at a time. */
  datatype Phase =
    | Connected
    | Unseen(node: string)      // looked its node up and found no entry
    | MayRegister(node: string) // registers next
    | Serving(node: string)
    | Resolved(node: string, stream: nat, target: nat) // found the open's target
    | MayOpen(node: string, stream: nat, target: nat)  // opens the route next
    | Gone

  predicate InService(p: Phase) {
    p.Serving? || p.Resolved? || p.MayOpen?
  }

  /** `entries` maps each registered node to the link that owns its entry. */
  datatype World = World(entries: map<string, nat>, legs: R.Legs, tasks: map<nat, Phase>, opens: map<nat, nat>)

  const EMPTY := World(map[], map[], map[], map[])

  datatype Action =
    | Connect(t: nat)
    | LookupNode(t: nat, node: string)
    | CheckNodes(t: nat)
    | RegisterNode(t: nat)
    | Drop(t: nat)             // the link ends before it registered
    | Unlist(node: string)     // unregister, eviction, operator removal
    | LookupTarget(t: nat, stream: nat, node: string)
    | CheckOpen(t: nat, bytesThisWindow: nat)
    | OpenRoute(t: nat)
    | CloseLeg(t: nat, stream: nat)
    | TeardownPair(t: nat, stream: nat)
    | Leave(t: nat, keys: seq<R.RouteKey>)

  function StreamCount(legs: R.Legs): nat {
    |legs| / 2
  }

  function Opens(w: World, t: nat): nat {
    if t in w.opens then w.opens[t] else 0
  }

  predicate Enabled(w: World, a: Action) {
    match a
    case Connect(t) => t !in w.tasks
    case LookupNode(t, _) => t in w.tasks && w.tasks[t].Connected?
    case CheckNodes(t) => t in w.tasks && w.tasks[t].Unseen?
    case RegisterNode(t) => t in w.tasks && w.tasks[t].MayRegister?
    case Drop(t) => t in w.tasks && !InService(w.tasks[t])
    case Unlist(_) => true
    case LookupTarget(t, stream, node) =>
      t in w.tasks && w.tasks[t].Serving? && stream % 2 == 1 && node in w.entries
    case CheckOpen(t, _) => t in w.tasks && w.tasks[t].Resolved?
    case OpenRoute(t) => t in w.tasks && w.tasks[t].MayOpen?
    case CloseLeg(t, _) => t in w.tasks && w.tasks[t].Serving?
    case TeardownPair(t, _) => t in w.tasks && w.tasks[t].Serving?
    case Leave(t, _) => t in w.tasks && w.tasks[t].Serving?
  }

  predicate Owned(entries: map<string, nat>, node: string, t: nat) {
    node in entries && entries[node] == t
  }

  function AfterOpen(w: World, t: nat, p: Phase): World
    requires p.MayOpen?
  {
    var from := R.RouteKey(t, p.stream);
    var to := R.RouteKey(p.target, R.AllocatedId(Opens(w, p.target)));
    w.(legs := R.Open(w.legs, from, to, to.connection, from.connection),
       opens := w.opens[p.target := Opens(w, p.target) + 1],
       tasks := w.tasks[t := Serving(p.node)])
  }

  /** A known node skips the capacity check: replacing it should not grow the table. */
  function Apply(l: Limits, w: World, a: Action): World
    requires Enabled(w, a)
  {
    match a
    case Connect(t) => w.(tasks := w.tasks[t := Connected])
    case LookupNode(t, node) =>
      w.(tasks := w.tasks[t := if node in w.entries then MayRegister(node) else Unseen(node)])
    case CheckNodes(t) =>
      w.(tasks := w.tasks[t := if AdmitRegister(l, |w.entries|) then MayRegister(w.tasks[t].node) else Gone])
    case RegisterNode(t) =>
      w.(entries := w.entries[w.tasks[t].node := t], tasks := w.tasks[t := Serving(w.tasks[t].node)])
    case Drop(t) => w.(tasks := w.tasks[t := Gone])
    case Unlist(node) => w.(entries := w.entries - {node})
    case LookupTarget(t, stream, node) =>
      w.(tasks := w.tasks[t := Resolved(w.tasks[t].node, stream, w.entries[node])])
    case CheckOpen(t, bytes) =>
      var p := w.tasks[t];
      w.(tasks := w.tasks[t := if AdmitOpen(l, StreamCount(w.legs), bytes).Allow? then MayOpen(p.node, p.stream, p.target)
                               else Serving(p.node)])
    case OpenRoute(t) => AfterOpen(w, t, w.tasks[t])
    case CloseLeg(t, stream) => w.(legs := R.Close(w.legs, R.RouteKey(t, stream)))
    case TeardownPair(t, stream) => w.(legs := R.Teardown(w.legs, R.RouteKey(t, stream)))
    case Leave(t, keys) =>
      var node := w.tasks[t].node;
      w.(entries := if Owned(w.entries, node, t) then w.entries - {node} else w.entries,
         legs := R.TeardownAll(w.legs, keys),
         tasks := w.tasks[t := Gone])
  }

  predicate Legal(l: Limits, w: World, acts: seq<Action>)
    decreases |acts|
  {
    acts == [] || (Enabled(w, acts[0]) && Legal(l, Apply(l, w, acts[0]), acts[1..]))
  }

  function Exec(l: Limits, w: World, acts: seq<Action>): World
    requires Legal(l, w, acts)
    decreases |acts|
  {
    if acts == [] then w else Exec(l, Apply(l, w, acts[0]), acts[1..])
  }

  // ---------------------------------------------------------------------
  // Links between a passed check and the change it admits

  function Registering(tasks: map<nat, Phase>): set<nat> {
    set t | t in tasks && tasks[t].MayRegister?
  }

  function Opening(tasks: map<nat, Phase>): set<nat> {
    set t | t in tasks && tasks[t].MayOpen?
  }

  /** At no point of the run are more than `n` links about to register. */
  predicate RegistrantsWithin(l: Limits, w: World, acts: seq<Action>, n: nat)
    requires Legal(l, w, acts)
    decreases |acts|
  {
    |Registering(w.tasks)| <= n && (acts != [] ==> RegistrantsWithin(l, Apply(l, w, acts[0]), acts[1..], n))
  }

  /** At no point of the run are more than `n` links about to open a route. */
  predicate OpenersWithin(l: Limits, w: World, acts: seq<Action>, n: nat)
    requires Legal(l, w, acts)
    decreases |acts|
  {
    |Opening(w.tasks)| <= n && (acts != [] ==> OpenersWithin(l, Apply(l, w, acts[0]), acts[1..], n))
  }

  /** Nodes about to be added that the table does not hold: a replacement counts only
      once its old entry has vanished. */
  function Joining(w: World): set<string> {
    set t | t in w.tasks && w.tasks[t].MayRegister? && w.tasks[t].node !in w.entries :: w.tasks[t].node
  }

  lemma {:induction false} SubsetNoLarger<T>(a: set<T>, b: set<T>)
    requires a <= b
    ensures |a| <= |b|
  {
    if a == {} {
    } else {
      var x :| x in a;
      SubsetNoLarger(a - {x}, b - {x});
    }
  }

  /** A joining node has a task that will register it. */
  lemma JoiningHasTask(w: World, node: string) returns (t: nat)
    requires node in Joining(w)
    ensures t in w.tasks && w.tasks[t] == MayRegister(node) && node !in w.entries
  {
    t :| t in w.tasks && w.tasks[t].MayRegister? && w.tasks[t].node !in w.entries && w.tasks[t].node == node;
  }

  lemma TaskMakesJoining(w: World, t: nat)
    requires t in w.tasks && w.tasks[t].MayRegister? && w.tasks[t].node !in w.entries
    ensures w.tasks[t].node in Joining(w)
  {
  }

  lemma {:induction false} JoiningNoLarger(w: World)
    ensures |Joining(w)| <= |Registering(w.tasks)|
    decreases |Registering(w.tasks)|
  {
    if Registering(w.tasks) == {} {
      assert forall t :: t in w.tasks && w.tasks[t].MayRegister? ==> t in Registering(w.tasks);
      assert Joining(w) == {};
    } else {
      var t :| t in Registering(w.tasks);
      var rest := w.(tasks := w.tasks - {t});
      assert Registering(rest.tasks) == Registering(w.tasks) - {t};
      JoiningNoLarger(rest);
      forall node | node in Joining(w)
        ensures node in Joining(rest) + {w.tasks[t].node}
      {
        var u := JoiningHasTask(w, node);
        if u != t {
          TaskMakesJoining(rest, u);
        }
      }
      SubsetNoLarger(Joining(w), Joining(rest) + {w.tasks[t].node});
    }
  }

  // ---------------------------------------------------------------------
  // Nodes

  lemma JoiningWithin(v: World, w: World, extra: set<string>)
    requires forall t :: t in v.tasks && v.tasks[t].MayRegister? && v.tasks[t].node !in v.entries ==>
      (t in w.tasks && w.tasks[t] == v.tasks[t] && v.tasks[t].node !in w.entries) || v.tasks[t].node in extra
    ensures Joining(v) <= Joining(w) + extra
  {
    forall node | node in Joining(v)
      ensures node in Joining(w) + extra
    {
      var t := JoiningHasTask(v, node);
      if node !in extra {
        TaskMakesJoining(w, t);
      }
    }
  }

  predicate NodesWithinReach(l: Limits, n: nat, w: World) {
    |w.entries| + |Joining(w)| <= l.maxNodes + n - 1
  }

  lemma NotJoiningAnyMore(v: World, node: string)
    requires node in v.entries
    ensures node !in Joining(v)
  {
  }

  lemma RegisterStep(l: Limits, n: nat, w: World, t: nat)
    requires Enabled(w, RegisterNode(t)) && NodesWithinReach(l, n, w)
    ensures NodesWithinReach(l, n, Apply(l, w, RegisterNode(t)))
  {
    var v := Apply(l, w, RegisterNode(t));
    var node := w.tasks[t].node;
    JoiningWithin(v, w, {});
    EntryAdded(w.entries, node, t);
    if node in w.entries {
      SubsetNoLarger(Joining(v), Joining(w));
    } else {
      TaskMakesJoining(w, t);
      NotJoiningAnyMore(v, node);
      SubsetNoLarger(Joining(v), Joining(w) - {node});
    }
  }

  /** The same registrants, and nothing or one entry gone. */
  predicate SameRegistrants(v: World, w: World) {
    forall t :: t in v.tasks && v.tasks[t].MayRegister? ==> t in w.tasks && w.tasks[t] == v.tasks[t]
  }

  lemma KeepStep(l: Limits, n: nat, w: World, v: World)
    requires NodesWithinReach(l, n, w) && v.entries == w.entries && SameRegistrants(v, w)
    ensures NodesWithinReach(l, n, v)
  {
    JoiningWithin(v, w, {});
    SubsetNoLarger(Joining(v), Joining(w));
  }

  lemma VanishStep(l: Limits, n: nat, w: World, v: World, node: string)
    requires NodesWithinReach(l, n, w) && node in w.entries && v.entries == w.entries - {node} && SameRegistrants(v, w)
    ensures NodesWithinReach(l, n, v)
  {
    JoiningWithin(v, w, {node});
    AtMostOneMore(Joining(v), Joining(w), node);
    OneEntryLess(w.entries, node);
  }

  lemma AtMostOneMore<T>(a: set<T>, b: set<T>, x: T)
    requires a <= b + {x}
    ensures |a| <= |b| + 1
  {
    SubsetNoLarger(a, b + {x});
  }

  lemma OneEntryLess(entries: map<string, nat>, node: string)
    requires node in entries
    ensures |entries - {node}| == |entries| - 1
  {
    assert entries.Keys == (entries - {node}).Keys + {node};
  }

  lemma EntryAdded(entries: map<string, nat>, node: string, t: nat)
    ensures |entries[node := t]| == |entries| + if node in entries then 0 else 1
  {
    assert entries[node := t].Keys == entries.Keys + {node};
    if node in entries {
      assert entries[node := t].Keys == entries.Keys;
    }
  }

  lemma UnlistStep(l: Limits, n: nat, w: World, node: string)
    requires NodesWithinReach(l, n, w)
    ensures NodesWithinReach(l, n, Apply(l, w, Unlist(node)))
  {
    var v := Apply(l, w, Unlist(node));
    if node in w.entries {
      VanishStep(l, n, w, v, node);
    } else {
      assert v.entries == w.entries;
      KeepStep(l, n, w, v);
    }
  }

  lemma LeaveStep(l: Limits, n: nat, w: World, t: nat, keys: seq<R.RouteKey>)
    requires Enabled(w, Leave(t, keys)) && NodesWithinReach(l, n, w)
    ensures NodesWithinReach(l, n, Apply(l, w, Leave(t, keys)))
  {
    var v, node := Apply(l, w, Leave(t, keys)), w.tasks[t].node;
    if Owned(w.entries, node, t) {
      VanishStep(l, n, w, v, node);
    } else {
      KeepStep(l, n, w, v);
    }
  }

  lemma AdmittedStep(l: Limits, n: nat, w: World, t: nat)
    requires Enabled(w, CheckNodes(t)) && NodesWithinReach(l, n, w)
    requires |Registering(Apply(l, w, CheckNodes(t)).tasks)| <= n
    ensures NodesWithinReach(l, n, Apply(l, w, CheckNodes(t)))
  {
    var v := Apply(l, w, CheckNodes(t));
    JoiningNoLarger(v);
    if v.tasks[t].Gone? {
      JoiningWithin(v, w, {});
      SubsetNoLarger(Joining(v), Joining(w));
    }
  }

  lemma OtherStep(l: Limits, n: nat, w: World, a: Action)
    requires Enabled(w, a) && NodesWithinReach(l, n, w)
    requires !a.RegisterNode? && !a.Unlist? && !a.CheckNodes? && !a.Leave?
    ensures NodesWithinReach(l, n, Apply(l, w, a))
  {
    JoiningWithin(Apply(l, w, a), w, {});
    SubsetNoLarger(Joining(Apply(l, w, a)), Joining(w));
  }

  lemma NodesStep(l: Limits, n: nat, w: World, a: Action)
    requires Enabled(w, a) && NodesWithinReach(l, n, w) && |Registering(Apply(l, w, a).tasks)| <= n
    ensures NodesWithinReach(l, n, Apply(l, w, a))
  {
    match a
    case RegisterNode(t) => RegisterStep(l, n, w, t);
    case Unlist(node) => UnlistStep(l, n, w, node);
    case Leave(t, keys) => LeaveStep(l, n, w, t, keys);
    case CheckNodes(t) => AdmittedStep(l, n, w, t);
    case _ => OtherStep(l, n, w, a);
  }

  lemma {:induction false} NodesRun(l: Limits, n: nat, w: World, acts: seq<Action>)
    requires Legal(l, w, acts) && RegistrantsWithin(l, w, acts, n) && NodesWithinReach(l, n, w)
    ensures NodesWithinReach(l, n, Exec(l, w, acts))
    decreases |acts|
  {
    if acts == [] {
    } else {
      NodesStep(l, n, w, acts[0]);
      NodesRun(l, n, Apply(l, w, acts[0]), acts[1..]);
    }
  }

  /** With at most `n` links at a time between their check and their registration, any
      interleaving stays within `n - 1` of the node limit. */
  lemma NodeOvershootIsBounded(l: Limits, n: nat, acts: seq<Action>)
    requires 1 <= n && Legal(l, EMPTY, acts) && RegistrantsWithin(l, EMPTY, acts, n)
    ensures |Exec(l, EMPTY, acts).entries| <= l.maxNodes + n - 1
  {
    assert Joining(EMPTY) == {};
    NodesRun(l, n, EMPTY, acts);
  }

  // ---------------------------------------------------------------------
  // Every entry has a live link

  function LiveLinks(tasks: map<nat, Phase>): set<nat> {
    set t | t in tasks && InService(tasks[t])
  }

  predicate EntriesLive(w: World) {
    forall node :: node in w.entries ==>
      var t := w.entries[node]; t in w.tasks && InService(w.tasks[t]) && w.tasks[t].node == node
  }

  lemma EntriesLiveStep(l: Limits, w: World, a: Action)
    requires Enabled(w, a) && EntriesLive(w)
    ensures EntriesLive(Apply(l, w, a))
  {
  }

  lemma {:induction false} EntriesLiveRun(l: Limits, w: World, acts: seq<Action>)
    requires Legal(l, w, acts) && EntriesLive(w)
    ensures EntriesLive(Exec(l, w, acts))
    decreases |acts|
  {
    if acts == [] {
    } else {
      EntriesLiveStep(l, w, acts[0]);
      EntriesLiveRun(l, Apply(l, w, acts[0]), acts[1..]);
    }
  }

  lemma {:induction false} OneEntryPerLink(entries: map<string, nat>, links: set<nat>)
    requires forall node :: node in entries ==> entries[node] in links
    requires forall x, y :: x in entries && y in entries && entries[x] == entries[y] ==> x == y
    ensures |entries| <= |links|
    decreases |entries|
  {
    if entries == map[] {
    } else {
      var node :| node in entries;
      OneEntryPerLink(entries - {node}, links - {entries[node]});
      assert entries.Keys == (entries - {node}).Keys + {node};
    }
  }

  /** The table never holds more nodes than there are links in service. */
  lemma NodesHaveLinks(l: Limits, acts: seq<Action>)
    requires Legal(l, EMPTY, acts)
    ensures |Exec(l, EMPTY, acts).entries| <= |LiveLinks(Exec(l, EMPTY, acts).tasks)|
  {
    EntriesLiveRun(l, EMPTY, acts);
    var w := Exec(l, EMPTY, acts);
    OneEntryPerLink(w.entries, LiveLinks(w.tasks));
  }

  // ---------------------------------------------------------------------
  // Streams

  lemma OpenAddsTwoLegs(legs: R.Legs, from: R.RouteKey, to: R.RouteKey, a: nat, b: nat)
    ensures |R.Open(legs, from, to, a, b)| <= |legs| + 2
    ensures from !in legs && to !in legs && from != to ==> |R.Open(legs, from, to, a, b)| == |legs| + 2
  {
    assert R.Open(legs, from, to, a, b).Keys == legs.Keys + {from, to};
    assert |legs.Keys + {from, to}| <= |legs.Keys| + |{from, to}|;
  }

  lemma {:induction false} TeardownNoLarger(legs: R.Legs, keys: seq<R.RouteKey>)
    ensures R.TeardownAll(legs, keys).Keys <= legs.Keys
    decreases |keys|
  {
    if keys == [] {
    } else {
      TeardownNoLarger(R.Teardown(legs, keys[0]), keys[1..]);
    }
  }

  predicate StreamsWithinReach(l: Limits, n: nat, w: World) {
    |w.legs| + 2 * |Opening(w.tasks)| <= 2 * (l.maxStreams + n) - 1
  }

  lemma LegsNoLarger(l: Limits, w: World, a: Action)
    requires Enabled(w, a) && !a.OpenRoute?
    ensures |Apply(l, w, a).legs| <= |w.legs|
  {
    if a.Leave? {
      TeardownNoLarger(w.legs, a.keys);
    }
    SubsetNoLarger(Apply(l, w, a).legs.Keys, w.legs.Keys);
  }

  lemma OpenStep(l: Limits, w: World, t: nat)
    requires Enabled(w, OpenRoute(t))
    ensures var v := Apply(l, w, OpenRoute(t));
            |v.legs| <= |w.legs| + 2 && |Opening(v.tasks)| == |Opening(w.tasks)| - 1
  {
    var v, p := Apply(l, w, OpenRoute(t)), w.tasks[t];
    var to := R.RouteKey(p.target, R.AllocatedId(Opens(w, p.target)));
    OpenAddsTwoLegs(w.legs, R.RouteKey(t, p.stream), to, to.connection, t);
    assert Opening(v.tasks) == Opening(w.tasks) - {t};
  }

  lemma StreamsStep(l: Limits, n: nat, w: World, a: Action)
    requires Enabled(w, a) && StreamsWithinReach(l, n, w) && |Opening(Apply(l, w, a).tasks)| <= n
    ensures StreamsWithinReach(l, n, Apply(l, w, a))
  {
    var v := Apply(l, w, a);
    if a.OpenRoute? {
      OpenStep(l, w, a.t);
    } else {
      LegsNoLarger(l, w, a);
      if !(a.CheckOpen? && v.tasks[a.t].MayOpen?) {
        SubsetNoLarger(Opening(v.tasks), Opening(w.tasks));
      }
    }
  }

  lemma {:induction false} StreamsRun(l: Limits, n: nat, w: World, acts: seq<Action>)
    requires Legal(l, w, acts) && OpenersWithin(l, w, acts, n) && StreamsWithinReach(l, n, w)
    ensures StreamsWithinReach(l, n, Exec(l, w, acts))
    decreases |acts|
  {
    if acts == [] {
    } else {
      StreamsStep(l, n, w, acts[0]);
      StreamsRun(l, n, Apply(l, w, acts[0]), acts[1..]);
    }
  }

  /** With at most `n` links at a time between their check and their open, any
      interleaving stays within `n - 1` of the stream limit. */
  lemma StreamOvershootIsBounded(l: Limits, n: nat, acts: seq<Action>)
    requires 1 <= n && Legal(l, EMPTY, acts) && OpenersWithin(l, EMPTY, acts, n)
    ensures StreamCount(Exec(l, EMPTY, acts).legs) <= l.maxStreams + n - 1
  {
    assert Opening(EMPTY.tasks) == {};
    StreamsRun(l, n, EMPTY, acts);
  }
}
