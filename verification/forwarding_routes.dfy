/** Routes over whole runs of the relay: the stream count, and routes to links that
    have left. Looking the target up and opening the route are separate critical
    sections (src/infra/relay_link.rs), so the target may leave in between. */
module ForwardingRoutes {
  import opened Forwarding
  import R = Routing
  import T = RoutingTeardown
  import S = Scheduler

  // ---------------------------------------------------------------------
  // A run, state by state

  lemma {:induction false} PrefixLegal(cfg: S.Config, r: Relay, acts: seq<Action>, n: nat)
    requires Legal(cfg, r, acts) && n <= |acts|
    ensures Legal(cfg, r, acts[..n])
    ensures n < |acts| ==> Enabled(cfg, Exec(cfg, r, acts[..n]), acts[n])
    decreases n
  {
    if n == 0 {
    } else {
      PrefixLegal(cfg, Apply(cfg, r, acts[0]), acts[1..], n - 1);
      assert acts[1..][..n - 1] == acts[..n][1..];
    }
  }

  lemma {:induction false} ExecSnoc(cfg: S.Config, r: Relay, acts: seq<Action>, a: Action)
    requires Legal(cfg, r, acts) && Enabled(cfg, Exec(cfg, r, acts), a)
    ensures Legal(cfg, r, acts + [a]) && Exec(cfg, r, acts + [a]) == Apply(cfg, Exec(cfg, r, acts), a)
    decreases |acts|
  {
    if acts == [] {
      assert (acts + [a])[1..] == [];
    } else {
      ExecSnoc(cfg, Apply(cfg, r, acts[0]), acts[1..], a);
      assert (acts + [a])[1..] == acts[1..] + [a];
    }
  }

  /** The state before the `n`-th step. */
  ghost function StateAt(cfg: S.Config, acts: seq<Action>, n: nat): Relay
    requires Legal(cfg, EMPTY, acts) && n <= |acts|
  {
    PrefixLegal(cfg, EMPTY, acts, n);
    Exec(cfg, EMPTY, acts[..n])
  }

  lemma StateNext(cfg: S.Config, acts: seq<Action>, n: nat)
    requires Legal(cfg, EMPTY, acts) && n < |acts|
    ensures Enabled(cfg, StateAt(cfg, acts, n), acts[n])
    ensures StateAt(cfg, acts, n + 1) == Apply(cfg, StateAt(cfg, acts, n), acts[n])
  {
    PrefixLegal(cfg, EMPTY, acts, n);
    ExecSnoc(cfg, EMPTY, acts[..n], acts[n]);
    assert acts[..n + 1] == acts[..n] + [acts[n]];
  }

  // ---------------------------------------------------------------------
  // The mirror and the stream count

  /** A step that opens a route takes no end that another stream still uses. */
  predicate OpensUnused(r: Relay, a: Action) {
    a.OpenRoute? ==>
      var to := Target(r, a.target);
      (a.from in r.legs ==> r.legs[a.from].peer == to) && (to in r.legs ==> r.legs[to].peer == a.from)
  }

  lemma MirrorStepExactly(cfg: S.Config, r: Relay, a: Action)
    requires R.Mirrored(r.legs) && Enabled(cfg, r, a)
    ensures R.Mirrored(Apply(cfg, r, a).legs) <==> OpensUnused(r, a)
  {
    if a.OpenRoute? {
      var to := Target(r, a.target);
      EndsDiffer(r, a.from, a.target);
      R.OpenKeepsMirrorExactly(r.legs, a.from, to, to.connection, a.from.connection);
    } else {
      LegsAre(cfg, r, a);
      MirrorKept(r.legs, a);
    }
  }

  lemma MirrorKept(legs: R.Legs, a: Action)
    requires R.Mirrored(legs)
    ensures R.Mirrored(LegsNext(legs, a))
  {
    match a
    case ReadClose(c, f) => R.CloseKeepsMirror(legs, R.RouteKey(c, f.StreamId()));
    case ReadCloseStream(c, stream) => R.TeardownKeepsMirror(legs, R.RouteKey(c, stream));
    case Leave(c, keys) => T.TeardownAllKeepsRest(legs, keys);
    case _ =>
  }

  ghost predicate AlwaysMirrored(cfg: S.Config, r: Relay, acts: seq<Action>)
    requires Legal(cfg, r, acts)
    decreases |acts|
  {
    R.Mirrored(r.legs) && (acts != [] ==> AlwaysMirrored(cfg, Apply(cfg, r, acts[0]), acts[1..]))
  }

  ghost predicate AllOpenUnused(cfg: S.Config, r: Relay, acts: seq<Action>)
    requires Legal(cfg, r, acts)
    decreases |acts|
  {
    acts != [] ==> OpensUnused(r, acts[0]) && AllOpenUnused(cfg, Apply(cfg, r, acts[0]), acts[1..])
  }

  lemma {:induction false} MirroredFrom(cfg: S.Config, r: Relay, acts: seq<Action>)
    requires R.Mirrored(r.legs) && Legal(cfg, r, acts)
    ensures AlwaysMirrored(cfg, r, acts) <==> AllOpenUnused(cfg, r, acts)
    decreases |acts|
  {
    if acts == [] {
    } else {
      var next := Apply(cfg, r, acts[0]);
      MirrorStepExactly(cfg, r, acts[0]);
      if R.Mirrored(next.legs) {
        MirroredFrom(cfg, next, acts[1..]);
      }
    }
  }

  /** Throughout a run the legs pair off into two-way streams if and only if no open
      takes an end still in use. */
  lemma MirroredExactly(cfg: S.Config, acts: seq<Action>)
    requires Legal(cfg, EMPTY, acts)
    ensures AlwaysMirrored(cfg, EMPTY, acts) <==> AllOpenUnused(cfg, EMPTY, acts)
  {
    MirroredFrom(cfg, EMPTY, acts);
  }

  lemma {:induction false} MirroredAt(cfg: S.Config, r: Relay, acts: seq<Action>, n: nat)
    requires Legal(cfg, r, acts) && AlwaysMirrored(cfg, r, acts) && n <= |acts|
    ensures Legal(cfg, r, acts[..n]) && R.Mirrored(Exec(cfg, r, acts[..n]).legs)
    decreases n
  {
    if n == 0 {
    } else {
      MirroredAt(cfg, Apply(cfg, r, acts[0]), acts[1..], n - 1);
      assert acts[1..][..n - 1] == acts[..n][1..];
    }
  }

  /** Then half the legs is the number of streams at every point of it. */
  lemma StreamCountIsExact(cfg: S.Config, acts: seq<Action>, n: nat)
    requires Legal(cfg, EMPTY, acts) && AllOpenUnused(cfg, EMPTY, acts) && n <= |acts|
    ensures var legs := StateAt(cfg, acts, n).legs;
            R.Mirrored(legs) && |legs| == 2 * |R.Streams(legs)|
  {
    MirroredExactly(cfg, acts);
    MirroredAt(cfg, EMPTY, acts, n);
    R.TwoLegsPerStream(StateAt(cfg, acts, n).legs);
  }

  // ---------------------------------------------------------------------
  // Links that have left

  predicate HasLeft(r: Relay, c: nat) {
    c in r.tasks && r.tasks[c].Left?
  }

  /** No leg starts or ends at a link that has left. */
  predicate Clean(r: Relay) {
    forall k :: k in r.legs ==> !HasLeft(r, k.connection) && !HasLeft(r, r.legs[k].peer.connection)
  }

  /** A step that opens a route does so before its target has left. */
  predicate OpensInTime(r: Relay, a: Action) {
    a.OpenRoute? ==> !HasLeft(r, a.target)
  }

  /** Links only leave by leaving, and never come back. */
  lemma LeftStep(cfg: S.Config, r: Relay, a: Action, c: nat)
    requires Enabled(cfg, r, a)
    ensures HasLeft(Apply(cfg, r, a), c) <==> HasLeft(r, c) || (a.Leave? && a.c == c)
  {
  }

  /** The turns of a link's teardown, over the keys that are its own, lead back to every
      leg that other links have towards it. */
  predicate Thorough(r: Relay, a: Action) {
    a.Leave? ==>
      forall k :: k in r.legs && r.legs[k].peer.connection == a.c && k.connection != a.c ==>
        LedBackTo(r.legs, R.TornDown(r.legs, a.keys), k)
  }

  predicate LedBackTo(legs: R.Legs, torn: seq<R.RouteKey>, k: R.RouteKey) {
    exists i :: 0 <= i < |torn| && T.LeadsTo(legs, torn[i], k)
  }

  /** A leg of another link goes with a leaving link exactly if it is led back to. */
  lemma LeaveTakes(legs: R.Legs, c: nat, keys: seq<R.RouteKey>, k: R.RouteKey)
    requires T.IsSnapshot(legs, c, keys) && k in legs && k.connection != c
    ensures k in R.TeardownAll(legs, keys) <==> !LedBackTo(legs, R.TornDown(legs, keys), k)
  {
    T.TeardownAllExactly(legs, keys, k);
    var torn := R.TornDown(legs, keys);
    if LedBackTo(legs, torn, k) {
      var i :| 0 <= i < |torn| && T.LeadsTo(legs, torn[i], k);
      assert torn[i] == k || T.LeadsTo(legs, torn[i], k);
    }
  }

  lemma LeaveCleansExactly(cfg: S.Config, r: Relay, c: nat, keys: seq<R.RouteKey>)
    requires Clean(r) && Enabled(cfg, r, Leave(c, keys))
    ensures Clean(Apply(cfg, r, Leave(c, keys))) <==> Thorough(r, Leave(c, keys))
  {
    var t := Apply(cfg, r, Leave(c, keys));
    forall k | k in r.legs
      ensures k in t.legs ==> t.legs[k] == r.legs[k] && k.connection != c
      ensures k.connection != c ==> (k in t.legs <==> !LedBackTo(r.legs, R.TornDown(r.legs, keys), k))
    {
      T.TeardownAllExactly(r.legs, keys, k);
      if k.connection != c {
        LeaveTakes(r.legs, c, keys, k);
      }
    }
    forall k | k in t.legs
      ensures k in r.legs
    {
      T.TeardownAllExactly(r.legs, keys, k);
    }
  }

  /** So it is whenever the legs pair off. */
  lemma MirroredIsThorough(r: Relay, a: Action)
    requires R.Mirrored(r.legs) && (a.Leave? ==> T.IsSnapshot(r.legs, a.c, a.keys))
    ensures Thorough(r, a)
  {
    if a.Leave? {
      T.TeardownAllKeepsRest(r.legs, a.keys);
      forall k | k in r.legs && r.legs[k].peer.connection == a.c && k.connection != a.c
        ensures LedBackTo(r.legs, R.TornDown(r.legs, a.keys), k)
      {
        assert R.MirroredAt(r.legs, k);
        LeaveTakes(r.legs, a.c, a.keys, k);
      }
    }
  }

  lemma OpenIsCleanInTime(r: Relay, from: R.RouteKey, to: R.RouteKey)
    requires Clean(r) && from.connection in r.tasks && !HasLeft(r, from.connection) && from != to
    ensures Clean(AfterOpen(r, from, to)) <==> !HasLeft(r, to.connection)
  {
    var t := AfterOpen(r, from, to);
    assert to in t.legs;
  }

  lemma CleanStepExactly(cfg: S.Config, r: Relay, a: Action)
    requires Clean(r) && Enabled(cfg, r, a)
    ensures Clean(Apply(cfg, r, a)) <==> OpensInTime(r, a) && Thorough(r, a)
  {
    match a
    case OpenRoute(from, target) =>
      EndsDiffer(r, from, target);
      OpenIsCleanInTime(r, from, Target(r, target));
    case Leave(c, keys) => LeaveCleansExactly(cfg, r, c, keys);
    case _ => OthersStayClean(cfg, r, a);
  }

  lemma OthersStayClean(cfg: S.Config, r: Relay, a: Action)
    requires Clean(r) && Enabled(cfg, r, a) && !a.OpenRoute? && !a.Leave?
    ensures Clean(Apply(cfg, r, a))
  {
    var t := Apply(cfg, r, a);
    LegsAre(cfg, r, a);
    LegsShrink(r.legs, a);
    forall k | k in t.legs
      ensures !HasLeft(t, k.connection) && !HasLeft(t, t.legs[k].peer.connection)
    {
      LeftStep(cfg, r, a, k.connection);
      LeftStep(cfg, r, a, t.legs[k].peer.connection);
    }
  }

  // ---------------------------------------------------------------------
  // The race

  predicate LooksUp(a: Action, c: nat) {
    a.Lookup? && a.from.connection == c
  }

  /** A target is looked up, leaves, and then has the route opened to it. */
  predicate Races(acts: seq<Action>, lookup: nat, leave: nat, open: nat) {
    && lookup < leave < open < |acts|
    && acts[lookup].Lookup? && acts[open] == OpenRoute(acts[lookup].from, acts[lookup].target)
    && acts[leave].Leave? && acts[leave].c == acts[lookup].target
    && forall m :: lookup < m < open ==> !LooksUp(acts[m], acts[lookup].from.connection)
  }

  lemma {:induction false} FindLookup(cfg: S.Config, acts: seq<Action>, n: nat, c: nat) returns (i: nat)
    requires Legal(cfg, EMPTY, acts) && n <= |acts|
    requires c in StateAt(cfg, acts, n).tasks && StateAt(cfg, acts, n).tasks[c].Opening?
    requires StateAt(cfg, acts, n).tasks[c].from.connection == c
    ensures var task := StateAt(cfg, acts, n).tasks[c];
            && i < n && acts[i] == Lookup(task.from, task.target)
            && forall m :: i < m < n ==> !LooksUp(acts[m], c)
    decreases n
  {
    assert n > 0;
    var r := StateAt(cfg, acts, n - 1);
    StateNext(cfg, acts, n - 1);
    OpeningStep(cfg, r, acts[n - 1], c);
    if LooksUp(acts[n - 1], c) {
      i := n - 1;
    } else {
      i := FindLookup(cfg, acts, n - 1, c);
    }
  }

  /** A link is about to open a route only since its lookup. */
  lemma OpeningStep(cfg: S.Config, r: Relay, a: Action, c: nat)
    requires Enabled(cfg, r, a) && c in Apply(cfg, r, a).tasks && Apply(cfg, r, a).tasks[c].Opening?
    ensures var task := Apply(cfg, r, a).tasks[c];
            if LooksUp(a, c) then a == Lookup(task.from, task.target)
            else c in r.tasks && r.tasks[c] == task
  {
  }

  lemma {:induction false} FindLeave(cfg: S.Config, acts: seq<Action>, i: nat, n: nat, c: nat) returns (j: nat)
    requires Legal(cfg, EMPTY, acts) && i <= n <= |acts|
    requires !HasLeft(StateAt(cfg, acts, i), c) && HasLeft(StateAt(cfg, acts, n), c)
    ensures i <= j < n && acts[j].Leave? && acts[j].c == c
    decreases n
  {
    assert i < n;
    StateNext(cfg, acts, n - 1);
    LeftStep(cfg, StateAt(cfg, acts, n - 1), acts[n - 1], c);
    if HasLeft(StateAt(cfg, acts, n - 1), c) {
      j := FindLeave(cfg, acts, i, n - 1, c);
    } else {
      j := n - 1;
    }
  }

  lemma {:induction false} LeftForGood(cfg: S.Config, acts: seq<Action>, j: nat, n: nat, c: nat)
    requires Legal(cfg, EMPTY, acts) && j < n <= |acts| && acts[j].Leave? && acts[j].c == c
    ensures HasLeft(StateAt(cfg, acts, n), c)
    decreases n
  {
    StateNext(cfg, acts, n - 1);
    LeftStep(cfg, StateAt(cfg, acts, n - 1), acts[n - 1], c);
    if n == j + 1 {
    } else {
      LeftForGood(cfg, acts, j, n - 1, c);
    }
  }

  lemma RaceStrands(cfg: S.Config, acts: seq<Action>, lookup: nat, leave: nat, open: nat)
    requires Legal(cfg, EMPTY, acts) && Races(acts, lookup, leave, open)
    ensures !Clean(StateAt(cfg, acts, open + 1))
  {
    var r := StateAt(cfg, acts, open);
    var target := acts[open].target;
    LeftForGood(cfg, acts, leave, open, target);
    StateNext(cfg, acts, open);
    LeftStep(cfg, r, acts[open], target);
    assert Target(r, target) in Apply(cfg, r, acts[open]).legs;
  }

  /** The step that strands a route is an open whose target left since its lookup. */
  lemma StrandingStep(cfg: S.Config, acts: seq<Action>, open: nat) returns (lookup: nat, leave: nat)
    requires Legal(cfg, EMPTY, acts) && open < |acts| && Clean(StateAt(cfg, acts, open))
    requires Enabled(cfg, StateAt(cfg, acts, open), acts[open]) && !OpensInTime(StateAt(cfg, acts, open), acts[open])
    ensures Races(acts, lookup, leave, open)
  {
    lookup := FindLookup(cfg, acts, open, acts[open].from.connection);
    StateNext(cfg, acts, lookup);
    leave := FindLeave(cfg, acts, lookup, open, acts[open].target);
  }

  lemma {:induction false} StrandedMeansRace(cfg: S.Config, acts: seq<Action>, n: nat)
      returns (lookup: nat, leave: nat, open: nat)
    requires Legal(cfg, EMPTY, acts) && n <= |acts| && AlwaysThorough(cfg, acts)
    requires !Clean(StateAt(cfg, acts, n))
    ensures Races(acts, lookup, leave, open)
    decreases n
  {
    assert n > 0;
    StateNext(cfg, acts, n - 1);
    if !Clean(StateAt(cfg, acts, n - 1)) {
      lookup, leave, open := StrandedMeansRace(cfg, acts, n - 1);
    } else {
      CleanStepExactly(cfg, StateAt(cfg, acts, n - 1), acts[n - 1]);
      open := n - 1;
      lookup, leave := StrandingStep(cfg, acts, open);
    }
  }

  ghost predicate AlwaysClean(cfg: S.Config, acts: seq<Action>)
    requires Legal(cfg, EMPTY, acts)
  {
    forall n :: 0 <= n <= |acts| ==> Clean(StateAt(cfg, acts, n))
  }

  ghost predicate AlwaysThorough(cfg: S.Config, acts: seq<Action>)
    requires Legal(cfg, EMPTY, acts)
  {
    forall n :: 0 <= n < |acts| ==> Thorough(StateAt(cfg, acts, n), acts[n])
  }

  ghost predicate Raced(acts: seq<Action>) {
    exists lookup, leave, open :: Races(acts, lookup, leave, open)
  }

  /** A run never has a route to a link that has left if and only if no target leaves
      between its lookup and the open, and every link that leaves leads back to all legs
      towards it. */
  lemma NoRouteToLeftLinkExactly(cfg: S.Config, acts: seq<Action>)
    requires Legal(cfg, EMPTY, acts)
    ensures AlwaysClean(cfg, acts) <==> !Raced(acts) && AlwaysThorough(cfg, acts)
  {
    if Raced(acts) {
      var lookup, leave, open :| Races(acts, lookup, leave, open);
      RaceStrands(cfg, acts, lookup, leave, open);
    }
    if AlwaysClean(cfg, acts) {
      forall n | 0 <= n < |acts|
        ensures Thorough(StateAt(cfg, acts, n), acts[n])
      {
        StateNext(cfg, acts, n);
        CleanStepExactly(cfg, StateAt(cfg, acts, n), acts[n]);
      }
    } else if AlwaysThorough(cfg, acts) {
      var n :| 0 <= n <= |acts| && !Clean(StateAt(cfg, acts, n));
      var lookup, leave, open := StrandedMeansRace(cfg, acts, n);
    }
  }

  /** The second half holds in every run whose opens take no end still in use. */
  lemma UnusedIsThorough(cfg: S.Config, acts: seq<Action>)
    requires Legal(cfg, EMPTY, acts) && AllOpenUnused(cfg, EMPTY, acts)
    ensures AlwaysThorough(cfg, acts)
  {
    MirroredExactly(cfg, acts);
    forall n | 0 <= n < |acts|
      ensures Thorough(StateAt(cfg, acts, n), acts[n])
    {
      StateNext(cfg, acts, n);
      MirroredAt(cfg, EMPTY, acts, n);
      MirroredIsThorough(StateAt(cfg, acts, n), acts[n]);
    }
  }

  // ---------------------------------------------------------------------
  // Stranded routes

  ghost predicate Reaches(cfg: S.Config, acts: seq<Action>, r: Relay) {
    Legal(cfg, EMPTY, acts) && Exec(cfg, EMPTY, acts) == r
  }

  lemma Then(cfg: S.Config, acts: seq<Action>, r: Relay, a: Action) returns (longer: seq<Action>, t: Relay)
    requires Reaches(cfg, acts, r) && Enabled(cfg, r, a)
    ensures Reaches(cfg, longer, t) && t == Apply(cfg, r, a) && longer == acts + [a]
  {
    ExecSnoc(cfg, EMPTY, acts, a);
    longer, t := acts + [a], Apply(cfg, r, a);
  }

  /** Link 1 leaves after link 0 has looked it up; its teardown has already run when
      the route is opened, so both legs stay. */
  lemma StrandedRoute(cfg: S.Config) returns (acts: seq<Action>, r: Relay)
    ensures Legal(cfg, EMPTY, acts) && Exec(cfg, EMPTY, acts) == r
    ensures HasLeft(r, 1) && R.RouteKey(0, 1) in r.legs && r.legs[R.RouteKey(0, 1)].peer == R.RouteKey(1, 2)
  {
    var from := R.RouteKey(0, 1);
    acts, r := Then(cfg, [], EMPTY, Connect(0));
    acts, r := Then(cfg, acts, r, Connect(1));
    acts, r := Then(cfg, acts, r, Lookup(from, 1));
    acts, r := Then(cfg, acts, r, Leave(1, []));
    acts, r := Then(cfg, acts, r, OpenRoute(from, 1));
  }

  lemma ThreeLinks(cfg: S.Config) returns (acts: seq<Action>, r: Relay)
    ensures Reaches(cfg, acts, r)
    ensures r == EMPTY.(tasks := map[0 := Reading, 1 := Reading, 2 := Reading],
                        egress := map[0 := S.INITIAL, 1 := S.INITIAL, 2 := S.INITIAL])
  {
    acts, r := Then(cfg, [], EMPTY, Connect(0));
    acts, r := Then(cfg, acts, r, Connect(1));
    acts, r := Then(cfg, acts, r, Connect(2));
  }

  /** A lookup and the open that follows. */
  lemma LookUpAndOpen(cfg: S.Config, acts: seq<Action>, r: Relay, from: R.RouteKey, target: nat)
      returns (longer: seq<Action>, t: Relay)
    requires Reaches(cfg, acts, r) && IsReading(r, from.connection) && from.stream % 2 == 1 && IsPresent(r, target)
    ensures Reaches(cfg, longer, t) && t == AfterOpen(r, from, Target(r, target))
  {
    longer, t := Then(cfg, acts, r, Lookup(from, target));
    OpenForgetsLookup(r, from, target);
    longer, t := Then(cfg, longer, t, OpenRoute(from, target));
  }

  lemma OpenForgetsLookup(r: Relay, from: R.RouteKey, target: nat)
    ensures var t := r.(tasks := r.tasks[from.connection := Opening(from, target)]);
            AfterOpen(t, from, Target(t, target)) == AfterOpen(r, from, Target(r, target))
  {
    var t := r.(tasks := r.tasks[from.connection := Opening(from, target)]);
    assert t.tasks[from.connection := Reading] == r.tasks[from.connection := Reading];
  }

  /** Stream 1 of link 0 leads to link 1 and is opened again, to link 2: when link 0
      leaves, nothing leads back to the leg of link 1. */
  lemma OverwrittenRoute(cfg: S.Config) returns (acts: seq<Action>, r: Relay)
    ensures Legal(cfg, EMPTY, acts) && Exec(cfg, EMPTY, acts) == r
    ensures HasLeft(r, 0) && r.legs == map[R.RouteKey(1, 2) := R.RouteLeg(R.RouteKey(0, 1), 0, false)]
  {
    var from := R.RouteKey(0, 1);
    acts, r := ThreeLinks(cfg);
    acts, r := LookUpAndOpen(cfg, acts, r, from, 1);
    acts, r := LookUpAndOpen(cfg, acts, r, from, 2);
    LegStays();
    assert r.legs == R.Open(R.Open(map[], from, R.RouteKey(1, 2), 1, 0), from, R.RouteKey(2, 2), 2, 0);
    acts, r := Then(cfg, acts, r, Leave(0, [from]));
  }

  lemma LegStays()
    ensures var once := R.Open(map[], R.RouteKey(0, 1), R.RouteKey(1, 2), 1, 0);
            R.TeardownAll(R.Open(once, R.RouteKey(0, 1), R.RouteKey(2, 2), 2, 0), [R.RouteKey(0, 1)]) ==
            map[R.RouteKey(1, 2) := R.RouteLeg(R.RouteKey(0, 1), 0, false)]
  {
    var from, legs := R.RouteKey(0, 1), R.Open(map[], R.RouteKey(0, 1), R.RouteKey(1, 2), 1, 0);
    legs := R.Open(legs, from, R.RouteKey(2, 2), 2, 0);
    assert [from][1..] == [] && R.TeardownAll(legs, [from]) == R.Teardown(legs, from);
  }
}
