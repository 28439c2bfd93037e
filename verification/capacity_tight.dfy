/** The overshoot bounds of `Capacity` cannot be lowered: for every limit and every
    number of links between check and change, some interleaving reaches them. Every
    link of these runs registers once. */
module CapacityTight {
  import opened Capacity
  import R = Routing

  // ---------------------------------------------------------------------
  // Runs

  /** A run from the empty table that ends in `w`, with at most `n` links about to
      register and `m` about to open a route at any point of it. */
  ghost predicate Reaches(l: Limits, n: nat, m: nat, acts: seq<Action>, w: World) {
    && Legal(l, EMPTY, acts) && Exec(l, EMPTY, acts) == w
    && RegistrantsWithin(l, EMPTY, acts, n) && OpenersWithin(l, EMPTY, acts, m)
  }

  lemma {:induction false} Snoc(l: Limits, n: nat, m: nat, w: World, acts: seq<Action>, a: Action)
    requires Legal(l, w, acts) && Enabled(Exec(l, w, acts), a)
    requires RegistrantsWithin(l, w, acts, n) && OpenersWithin(l, w, acts, m)
    requires var v := Apply(l, Exec(l, w, acts), a); |Registering(v.tasks)| <= n && |Opening(v.tasks)| <= m
    ensures Legal(l, w, acts + [a]) && Exec(l, w, acts + [a]) == Apply(l, Exec(l, w, acts), a)
    ensures RegistrantsWithin(l, w, acts + [a], n) && OpenersWithin(l, w, acts + [a], m)
    decreases |acts|
  {
    if acts == [] {
      assert (acts + [a])[1..] == [];
    } else {
      Snoc(l, n, m, Apply(l, w, acts[0]), acts[1..], a);
      assert (acts + [a])[1..] == acts[1..] + [a];
    }
  }

  ghost predicate Reachable(l: Limits, n: nat, m: nat, w: World) {
    exists acts :: Reaches(l, n, m, acts, w)
  }

  lemma Step(l: Limits, n: nat, m: nat, w: World, a: Action, v: World)
    requires Reachable(l, n, m, w) && Enabled(w, a) && v == Apply(l, w, a)
    requires |Registering(v.tasks)| <= n && |Opening(v.tasks)| <= m
    ensures Reachable(l, n, m, v)
  {
    var acts :| Reaches(l, n, m, acts, w);
    Snoc(l, n, m, EMPTY, acts, a);
    assert Reaches(l, n, m, acts + [a], v);
  }

  // ---------------------------------------------------------------------
  // Nodes

  /** Node `i`, registered by link `i`. */
  function NodeName(i: nat): (s: string)
    ensures |s| == i
  {
    seq(i, _ => 'x')
  }

  function Table(a: nat): map<string, nat> {
    if a == 0 then map[] else Table(a - 1)[NodeName(a - 1) := a - 1]
  }

  lemma {:induction false} TableMisses(a: nat, i: nat)
    requires a <= i
    ensures NodeName(i) !in Table(a)
  {
    if a == 0 {
    } else {
      TableMisses(a - 1, i);
      assert |NodeName(i)| != |NodeName(a - 1)|;
    }
  }

  lemma {:induction false} TableCount(a: nat)
    ensures |Table(a)| == a
  {
    if a == 0 {
    } else {
      TableCount(a - 1);
      TableMisses(a - 1, a - 1);
      EntryAdded(Table(a - 1), NodeName(a - 1), a - 1);
    }
  }

  lemma {:induction false} TableHas(a: nat, i: nat)
    requires i < a
    ensures NodeName(i) in Table(a) && Table(a)[NodeName(i)] == i
  {
    if i == a - 1 {
    } else {
      TableHas(a - 1, i);
      assert |NodeName(i)| != |NodeName(a - 1)|;
    }
  }

  function PhaseAt(a: nat, t: nat): Phase {
    if t < a then Serving(NodeName(t)) else MayRegister(NodeName(t))
  }

  /** Links below `a` have registered, the others below `b` may. */
  function Crew(a: nat, b: nat): map<nat, Phase> {
    map t: nat | t < b :: PhaseAt(a, t)
  }

  function Stage(a: nat, b: nat): World {
    World(Table(a), map[], Crew(a, b), map[])
  }

  lemma {:induction false} RangeCount(s: set<nat>, a: nat, b: nat)
    requires a <= b && forall t :: t in s ==> a <= t < b
    ensures |s| <= b - a
    decreases b - a
  {
    if a == b {
      assert s == {};
    } else {
      RangeCount(s - {b - 1}, a, b - 1);
      SubsetNoLarger(s, (s - {b - 1}) + {b - 1});
    }
  }

  /** Link `b` joins the crew in phase `p`. */
  function Hired(a: nat, b: nat, p: Phase): World {
    Stage(a, b).(tasks := Crew(a, b)[b := p])
  }

  /** At most the admitted links register. */
  lemma HiredCrowds(a: nat, b: nat, p: Phase)
    requires a <= b && !InService(p) && !p.MayRegister?
    ensures |Registering(Hired(a, b, p).tasks)| <= b - a && |Opening(Hired(a, b, p).tasks)| == 0
  {
    var tasks := Hired(a, b, p).tasks;
    RangeCount(Registering(tasks), a, b);
    assert Opening(tasks) == {};
  }

  lemma CrewCrowds(a: nat, b: nat)
    requires a <= b
    ensures |Registering(Crew(a, b))| <= b - a && |Opening(Crew(a, b))| == 0
  {
    RangeCount(Registering(Crew(a, b)), a, b);
    assert Opening(Crew(a, b)) == {};
  }

  /** Link `b` connects and finds its node missing. */
  lemma Hire(l: Limits, n: nat, m: nat, a: nat, b: nat)
    requires a <= b && b - a <= n && Reachable(l, n, m, Stage(a, b))
    ensures Reachable(l, n, m, Hired(a, b, Unseen(NodeName(b))))
  {
    TableMisses(a, b);
    HiredCrowds(a, b, Connected);
    Step(l, n, m, Stage(a, b), Connect(b), Hired(a, b, Connected));
    HiredCrowds(a, b, Unseen(NodeName(b)));
    Step(l, n, m, Hired(a, b, Connected), LookupNode(b, NodeName(b)), Hired(a, b, Unseen(NodeName(b))));
  }

  /** It also finds room for it. */
  lemma Admit(l: Limits, n: nat, m: nat, a: nat, b: nat)
    requires a <= b && b - a < n && a < l.maxNodes && Reachable(l, n, m, Stage(a, b))
    ensures Reachable(l, n, m, Stage(a, b + 1))
  {
    Hire(l, n, m, a, b);
    TableCount(a);
    CrewCrowds(a, b + 1);
    assert Crew(a, b)[b := MayRegister(NodeName(b))] == Crew(a, b + 1);
    Step(l, n, m, Hired(a, b, Unseen(NodeName(b))), CheckNodes(b), Stage(a, b + 1));
  }

  lemma Enter(l: Limits, n: nat, m: nat, a: nat, b: nat)
    requires a < b && b - a <= n && Reachable(l, n, m, Stage(a, b))
    ensures Reachable(l, n, m, Stage(a + 1, b))
  {
    assert Crew(a, b)[a := Serving(NodeName(a))] == Crew(a + 1, b);
    CrewCrowds(a + 1, b);
    Step(l, n, m, Stage(a, b), RegisterNode(a), Stage(a + 1, b));
  }

  lemma {:induction false} AdmitUpTo(l: Limits, n: nat, m: nat, a: nat, b: nat, c: nat)
    requires a <= b <= c && c - a <= n && a < l.maxNodes && Reachable(l, n, m, Stage(a, b))
    ensures Reachable(l, n, m, Stage(a, c))
    decreases c - b
  {
    if b == c {
    } else {
      Admit(l, n, m, a, b);
      AdmitUpTo(l, n, m, a, b + 1, c);
    }
  }

  lemma {:induction false} EnterAll(l: Limits, n: nat, m: nat, a: nat, b: nat)
    requires a <= b && b - a <= n && Reachable(l, n, m, Stage(a, b))
    ensures Reachable(l, n, m, Stage(b, b))
    decreases b - a
  {
    if a == b {
    } else {
      Enter(l, n, m, a, b);
      EnterAll(l, n, m, a + 1, b);
    }
  }

  /** Links register one after another. */
  lemma {:induction false} Fill(l: Limits, n: nat, m: nat, a: nat)
    requires 1 <= n && a <= l.maxNodes
    ensures Reachable(l, n, m, Stage(a, a))
    decreases a
  {
    if a == 0 {
      assert Crew(0, 0) == map[];
      CrewCrowds(0, 0);
      assert Reaches(l, n, m, [], Stage(0, 0));
    } else {
      Fill(l, n, m, a - 1);
      Admit(l, n, m, a - 1, a - 1);
      Enter(l, n, m, a - 1, a);
    }
  }

  /** All but one place are taken, `n` links find the last one free, and all register. */
  lemma Overfill(l: Limits, n: nat, a: nat)
    requires 1 <= n && a < l.maxNodes
    ensures Reachable(l, n, 0, Stage(a + n, a + n))
  {
    Fill(l, n, 0, a);
    AdmitUpTo(l, n, 0, a, a, a + n);
    EnterAll(l, n, 0, a, a + n);
  }

  lemma NodeOvershootIsReached(l: Limits, n: nat) returns (acts: seq<Action>)
    requires 1 <= n && 1 <= l.maxNodes
    ensures Legal(l, EMPTY, acts) && RegistrantsWithin(l, EMPTY, acts, n)
    ensures |Exec(l, EMPTY, acts).entries| == l.maxNodes + n - 1
  {
    var full := l.maxNodes + n - 1;
    Overfill(l, n, l.maxNodes - 1);
    TableCount(full);
    acts :| Reaches(l, n, 0, acts, Stage(full, full));
  }

  // ---------------------------------------------------------------------
  // Streams

  /** Links from `j` up to `q` were admitted to open a route from stream `stream` to
      link 0; the others of the `n` links serve. */
  function TeamPhase(j: nat, q: nat, stream: nat, t: nat): Phase {
    if j <= t < q then MayOpen(NodeName(t), stream, 0) else Serving(NodeName(t))
  }

  function Team(n: nat, j: nat, q: nat, stream: nat): map<nat, Phase> {
    map t: nat | t < n :: TeamPhase(j, q, stream, t)
  }

  /** The first `s` streams came from link 0; since then links below `j` opened one
      each, from stream `2 * s + 1`. All lead to link 0. */
  predicate Tidy(legs: R.Legs, s: nat, j: nat) {
    && |legs| == 2 * (s + j)
    && forall k :: k in legs ==>
         if k.stream % 2 == 0 then k.connection == 0 && k.stream <= 2 * (s + j)
         else k.stream < 2 * s || (k.stream == 2 * s + 1 && k.connection < j)
  }

  predicate TeamWorld(w: World, n: nat, s: nat, j: nat, q: nat) {
    && w.entries == Table(n) && w.tasks == Team(n, j, q, 2 * s + 1) && Opens(w, 0) == s + j && Tidy(w.legs, s, j)
  }

  lemma TeamCrowds(n: nat, tasks: map<nat, Phase>)
    requires forall t :: t in tasks ==> t < n && !tasks[t].MayRegister?
    ensures |Registering(tasks)| == 0 && |Opening(tasks)| <= n
  {
    assert Registering(tasks) == {};
    RangeCount(Opening(tasks), 0, n);
  }

  /** Link `q` finds link 0, and room for a stream. */
  lemma OpenerSteps(l: Limits, n: nat, w: World, s: nat, j: nat, q: nat)
    requires j <= q < n && s + j < l.maxStreams && 1 <= l.maxThroughput && TeamWorld(w, n, s, j, q)
    ensures var stream := 2 * s + 1;
            var v := w.(tasks := w.tasks[q := Resolved(NodeName(q), stream, 0)]);
            && Enabled(w, LookupTarget(q, stream, NodeName(0))) && Apply(l, w, LookupTarget(q, stream, NodeName(0))) == v
            && Enabled(v, CheckOpen(q, 0)) && Apply(l, v, CheckOpen(q, 0)) == w.(tasks := Team(n, j, q + 1, stream))
  {
    var stream := 2 * s + 1;
    TableHas(n, 0);
    assert w.tasks[q] == TeamPhase(j, q, stream, q);
    assert w.tasks[q := MayOpen(NodeName(q), stream, 0)] == Team(n, j, q + 1, stream);
  }

  /** Link `q` looks link 0 up and passes the check. */
  lemma AdmitOpener(l: Limits, n: nat, w: World, s: nat, j: nat, q: nat) returns (v: World)
    requires j <= q < n && s + j < l.maxStreams && 1 <= l.maxThroughput
    requires Reachable(l, n, n, w) && TeamWorld(w, n, s, j, q)
    ensures Reachable(l, n, n, v) && TeamWorld(v, n, s, j, q + 1)
  {
    var stream := 2 * s + 1;
    var u := w.(tasks := w.tasks[q := Resolved(NodeName(q), stream, 0)]);
    v := w.(tasks := Team(n, j, q + 1, stream));
    OpenerSteps(l, n, w, s, j, q);
    TeamCrowds(n, u.tasks);
    Step(l, n, n, w, LookupTarget(q, stream, NodeName(0)), u);
    TeamCrowds(n, v.tasks);
    Step(l, n, n, u, CheckOpen(q, 0), v);
  }

  lemma AllocatedInOrder(i: nat)
    requires i < R.DISTINCT_IDS - 1
    ensures R.AllocatedId(i) == 2 * i + 2
  {
  }

  lemma OpenStaysTidy(legs: R.Legs, s: nat, j: nat)
    requires Tidy(legs, s, j)
    ensures Tidy(R.Open(legs, R.RouteKey(j, 2 * s + 1), R.RouteKey(0, 2 * (s + j) + 2), 0, j), s, j + 1)
  {
    var from, to := R.RouteKey(j, 2 * s + 1), R.RouteKey(0, 2 * (s + j) + 2);
    assert from !in legs && to !in legs;
    OpenAddsTwoLegs(legs, from, to, 0, j);
  }

  lemma OpenRouteStep(l: Limits, n: nat, w: World, s: nat, j: nat, q: nat)
    requires j < q <= n && s + j < R.DISTINCT_IDS - 1 && TeamWorld(w, n, s, j, q)
    ensures Enabled(w, OpenRoute(j)) && TeamWorld(Apply(l, w, OpenRoute(j)), n, s, j + 1, q)
  {
    var stream := 2 * s + 1;
    assert w.tasks[j] == TeamPhase(j, q, stream, j);
    assert w.tasks[j := Serving(NodeName(j))] == Team(n, j + 1, q, stream);
    AllocatedInOrder(s + j);
    var legs := R.Open(w.legs, R.RouteKey(j, stream), R.RouteKey(0, 2 * (s + j) + 2), 0, j);
    assert Tidy(legs, s, j + 1) by { OpenStaysTidy(w.legs, s, j); }
    assert Apply(l, w, OpenRoute(j)).legs == legs;
  }

  /** Link `j` opens its route. */
  lemma DoOpen(l: Limits, n: nat, w: World, s: nat, j: nat, q: nat) returns (v: World)
    requires j < q <= n && s + j < R.DISTINCT_IDS - 1
    requires Reachable(l, n, n, w) && TeamWorld(w, n, s, j, q)
    ensures Reachable(l, n, n, v) && TeamWorld(v, n, s, j + 1, q)
  {
    OpenRouteStep(l, n, w, s, j, q);
    v := Apply(l, w, OpenRoute(j));
    TeamCrowds(n, v.tasks);
    Step(l, n, n, w, OpenRoute(j), v);
  }

  lemma {:induction false} AdmitOpeners(l: Limits, n: nat, w: World, s: nat, q: nat) returns (v: World)
    requires q <= n && s < l.maxStreams && 1 <= l.maxThroughput
    requires Reachable(l, n, n, w) && TeamWorld(w, n, s, 0, q)
    ensures Reachable(l, n, n, v) && TeamWorld(v, n, s, 0, n)
    decreases n - q
  {
    if q == n {
      v := w;
    } else {
      v := AdmitOpener(l, n, w, s, 0, q);
      v := AdmitOpeners(l, n, v, s, q + 1);
    }
  }

  lemma {:induction false} DoOpens(l: Limits, n: nat, w: World, s: nat, j: nat) returns (v: World)
    requires j <= n && s + n < R.DISTINCT_IDS
    requires Reachable(l, n, n, w) && TeamWorld(w, n, s, j, n)
    ensures Reachable(l, n, n, v) && TeamWorld(v, n, s, n, n)
    decreases n - j
  {
    if j == n {
      v := w;
    } else {
      v := DoOpen(l, n, w, s, j, n);
      v := DoOpens(l, n, v, s, j + 1);
    }
  }

  /** Link 0 opens streams to itself one after another. */
  lemma {:induction false} OpenSequentially(l: Limits, n: nat, s: nat) returns (w: World)
    requires 1 <= n && 1 <= l.maxNodes && 1 <= l.maxThroughput && s < l.maxStreams && s < R.DISTINCT_IDS - 1
    ensures Reachable(l, n, n, w) && TeamWorld(w, n, s, 0, 0)
    decreases s
  {
    if s == 0 {
      Fill(l, n, n, 0);
      AdmitUpTo(l, n, n, 0, 0, n);
      EnterAll(l, n, n, 0, n);
      w := Stage(n, n);
      assert Crew(n, n) == Team(n, 0, 0, 1);
    } else {
      w := OpenSequentially(l, n, s - 1);
      w := AdmitOpener(l, n, w, s - 1, 0, 0);
      w := DoOpen(l, n, w, s - 1, 0, 1);
      NextStream(w, n, s - 1);
    }
  }

  /** With its stream open, link 0 is ready for the next one. */
  lemma NextStream(w: World, n: nat, s: nat)
    requires TeamWorld(w, n, s, 1, 1)
    ensures TeamWorld(w, n, s + 1, 0, 0)
  {
    assert Team(n, 1, 1, 2 * s + 1) == Team(n, 0, 0, 2 * s + 3);
  }

  /** All but one stream are open, `n` links find the last one free, and all open
      theirs. */
  lemma StreamOvershootIsReached(l: Limits, n: nat) returns (acts: seq<Action>)
    requires 1 <= n && 1 <= l.maxNodes && 1 <= l.maxStreams && 1 <= l.maxThroughput
    requires l.maxStreams + n <= R.DISTINCT_IDS
    ensures Legal(l, EMPTY, acts) && OpenersWithin(l, EMPTY, acts, n)
    ensures StreamCount(Exec(l, EMPTY, acts).legs) == l.maxStreams + n - 1
  {
    var s := l.maxStreams - 1;
    var w := OpenSequentially(l, n, s);
    w := AdmitOpeners(l, n, w, s, 0);
    w := DoOpens(l, n, w, s, 0);
    acts :| Reaches(l, n, n, acts, w);
  }
}
