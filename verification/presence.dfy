/** Registration and presence over whole runs (src/infra/relay_link.rs with
    `Connections`): ownership of table entries, and the order of what is announced.
    The table and the hub have locks of their own, so handing out an id, changing the
    table, reading the watchers and telling each of them are separate steps. */
module PresenceRuns {
  import opened Connections
  import opened Frames

  /** Whose step it is: a link's own task, or an operator's request or a sweep. */
  datatype Task = Link(id: nat) | Operator(id: nat)

  /** An announcement a task owes for a change it made: of the node's new state, to the
      watchers in `to` once it has read who they are. */
  datatype Debt = Debt(node: string, online: bool, to: Option<set<nat>>)

  /** A link's watch in progress: it has read the table, and perhaps subscribed, but
      not yet sent the replay of what it read. */
  datatype Pending = Pending(target: string, online: bool, subscribed: bool)

  /** `waiting` are the ids handed out whose links have yet to enter the table, `left` the
      links whose task has ended. `inbox` is what presence queued on each link, `lossy` the
      links whose full queue dropped some of it. `published` records the run: per node the
      announcements begun. */
  datatype Hub = Hub(
    entries: Entries,
    nextConnection: nat,
    waiting: set<nat>,
    owed: map<Task, Debt>,
    watchers: Watchers,
    pending: map<nat, Pending>,
    inbox: map<nat, seq<Notice>>,
    lossy: set<nat>,
    published: map<string, seq<bool>>,
    left: set<nat>)

  const EMPTY := Hub(map[], 0, {}, map[], map[], map[], map[], {}, map[], {})

  /** `full` says whether the queue has no room at that moment. */
  datatype Action =
    | Allocate
    | Register(connection: nat, node: string, now: int)
    | Touch(node: string, connection: nat, now: int)
    | SetLabels(node: string, connection: nat, labels: seq<string>)
    | RemoveIfCurrent(node: string, connection: nat) // unregister, link loss
    | Remove(operator: nat, node: string)            // eviction, operator removal
    | Announce(task: Task)                           // reads who watches
    | Tell(task: Task, connection: nat, full: bool)
    | Announced(task: Task)
    | WatchLookup(connection: nat, target: string)
    | WatchSubscribe(connection: nat)
    | WatchReplay(connection: nat, full: bool)
    | Unwatch(connection: nat)

  /** The link has entered the table, now or before. */
  predicate Registered(h: Hub, c: nat) {
    c < h.nextConnection && c !in h.waiting
  }

  /** A link's task does one thing after another. */
  predicate Free(h: Hub, c: nat) {
    Registered(h, c) && c !in h.left && c !in h.pending && Link(c) !in h.owed
  }

  predicate Enabled(h: Hub, a: Action) {
    match a
    case Allocate => true
    case Register(c, _, _) => c in h.waiting && Link(c) !in h.owed
    case Touch(_, c, _) => Free(h, c)
    case SetLabels(_, c, _) => Free(h, c)
    case RemoveIfCurrent(_, c) => Free(h, c)
    case Remove(operator, _) => Operator(operator) !in h.owed
    case Announce(t) => t in h.owed && h.owed[t].to.None?
    case Tell(t, c, _) => t in h.owed && h.owed[t].to.Some? && c in h.owed[t].to.value
    case Announced(t) => t in h.owed && h.owed[t].to == Some({})
    case WatchLookup(c, _) => Free(h, c)
    case WatchSubscribe(c) => c in h.pending && !h.pending[c].subscribed
    case WatchReplay(c, _) => c in h.pending && h.pending[c].subscribed
    case Unwatch(c) => Free(h, c)
  }

  function Published(h: Hub, node: string): seq<bool> {
    if node in h.published then h.published[node] else []
  }

  function Owe(h: Hub, t: Task, node: string, online: bool): Hub {
    h.(owed := h.owed[t := Debt(node, online, None)])
  }

  function AfterRegister(h: Hub, c: nat, node: string, now: int): Hub {
    var next := h.(entries := h.entries[node := Entry(c, c, now, [])], waiting := h.waiting - {c});
    if node in h.entries then next else Owe(next, Link(c), node, true)
  }

  function AfterRemove(h: Hub, t: Task, node: string): Hub {
    if node in h.entries then Owe(h.(entries := h.entries - {node}), t, node, false) else h
  }

  function AfterAnnounce(h: Hub, t: Task): Hub
    requires t in h.owed
  {
    var d := h.owed[t];
    h.(owed := h.owed[t := d.(to := Some(WatchersOf(h.watchers, d.node)))],
       published := h.published[d.node := Published(h, d.node) + [d.online]])
  }

  /** One notice to one queue, which drops it when full. */
  function Deliver(h: Hub, c: nat, n: Notice, full: bool): Hub {
    if full then h.(lossy := h.lossy + {c}) else h.(inbox := h.inbox[c := Mail(h.inbox, c) + [n]])
  }

  function AfterTell(h: Hub, t: Task, c: nat, full: bool): Hub
    requires t in h.owed && h.owed[t].to.Some?
  {
    var d := h.owed[t];
    Deliver(h, c, (d.node, d.online), full).(owed := h.owed[t := d.(to := Some(d.to.value - {c}))])
  }

  function AfterSubscribe(h: Hub, c: nat): Hub
    requires c in h.pending
  {
    var p := h.pending[c];
    h.(watchers := Subscribed(h.watchers, p.target, c, c), pending := h.pending[c := p.(subscribed := true)])
  }

  function AfterReplay(h: Hub, c: nat, full: bool): Hub
    requires c in h.pending
  {
    var p := h.pending[c];
    Deliver(h, c, (p.target, p.online), full).(pending := h.pending - {c})
  }

  function Apply(h: Hub, a: Action): Hub
    requires Enabled(h, a)
  {
    match a
    case Allocate => h.(nextConnection := h.nextConnection + 1, waiting := h.waiting + {h.nextConnection})
    case Register(c, node, now) => AfterRegister(h, c, node, now)
    case Touch(node, c, now) => h.(entries := Touched(h.entries, node, c, now))
    case SetLabels(node, c, labels) => h.(entries := Labelled(h.entries, node, c, labels))
    case RemoveIfCurrent(node, c) => if Owns(h.entries, node, c) then AfterRemove(h, Link(c), node) else h
    case Remove(operator, node) => AfterRemove(h, Operator(operator), node)
    case Announce(t) => AfterAnnounce(h, t)
    case Tell(t, c, full) => AfterTell(h, t, c, full)
    case Announced(t) => h.(owed := h.owed - {t})
    case WatchLookup(c, target) => h.(pending := h.pending[c := Pending(target, target in h.entries, false)])
    case WatchSubscribe(c) => AfterSubscribe(h, c)
    case WatchReplay(c, full) => AfterReplay(h, c, full)
    case Unwatch(c) => h.(watchers := Unsubscribed(h.watchers, c), left := h.left + {c})
  }

  predicate Legal(h: Hub, acts: seq<Action>)
    decreases |acts|
  {
    acts == [] || (Enabled(h, acts[0]) && Legal(Apply(h, acts[0]), acts[1..]))
  }

  function Exec(h: Hub, acts: seq<Action>): Hub
    requires Legal(h, acts)
    decreases |acts|
  {
    if acts == [] then h else Exec(Apply(h, acts[0]), acts[1..])
  }

  // ---------------------------------------------------------------------
  // Ownership

  /** The connection on whose behalf a step acts on the table. */
  predicate ActsFor(a: Action, c: nat) {
    (a.Touch? || a.SetLabels? || a.RemoveIfCurrent?) && a.connection == c
  }

  /** A step on behalf of a link leaves every entry it does not own alone. */
  lemma StaleLinkIsPowerless(h: Hub, a: Action, c: nat, node: string)
    requires Enabled(h, a) && ActsFor(a, c) && !Owns(h.entries, node, c)
    ensures node in Apply(h, a).entries <==> node in h.entries
    ensures node in h.entries ==> Apply(h, a).entries[node] == h.entries[node]
  {
  }

  lemma LostStaysLost(h: Hub, a: Action, node: string, c: nat)
    requires Enabled(h, a) && Registered(h, c) && !Owns(h.entries, node, c)
    ensures Registered(Apply(h, a), c) && !Owns(Apply(h, a).entries, node, c)
  {
  }

  lemma {:induction false} LostForever(h: Hub, acts: seq<Action>, node: string, c: nat)
    requires Legal(h, acts) && Registered(h, c) && !Owns(h.entries, node, c)
    ensures !Owns(Exec(h, acts).entries, node, c)
    decreases |acts|
  {
    if acts == [] {
    } else {
      LostStaysLost(h, acts[0], node, c);
      LostForever(Apply(h, acts[0]), acts[1..], node, c);
    }
  }

  /** Once a registered link does not own a node's entry, however that came about and
      whichever of the two ids is newer, no later step of the run on its behalf changes
      that node's entry. */
  lemma SupersededForever(h: Hub, between: seq<Action>, a: Action, node: string, c: nat)
    requires Registered(h, c) && !Owns(h.entries, node, c)
    requires Legal(h, between) && Enabled(Exec(h, between), a) && ActsFor(a, c)
    ensures var t := Exec(h, between);
            && (node in Apply(t, a).entries <==> node in t.entries)
            && (node in t.entries ==> Apply(t, a).entries[node] == t.entries[node])
  {
    LostForever(h, between, node, c);
    StaleLinkIsPowerless(Exec(h, between), a, c, node);
  }

  // ---------------------------------------------------------------------
  // Alternation

  /** Some task has yet to finish announcing a change of the node. */
  predicate Owed(h: Hub, node: string) {
    exists t :: t in h.owed && h.owed[t].node == node
  }

  /** The step adds the node to the table or takes it out. */
  predicate Changes(h: Hub, a: Action, node: string)
    requires Enabled(h, a)
  {
    (node in Apply(h, a).entries) != (node in h.entries)
  }

  /** No change of the node finds an earlier one still unannounced. */
  predicate OneAtATime(h: Hub, acts: seq<Action>, node: string)
    requires Legal(h, acts)
    decreases |acts|
  {
    acts == [] ||
    (&& (Changes(h, acts[0], node) ==> !Owed(h, node))
     && OneAtATime(Apply(h, acts[0]), acts[1..], node))
  }

  /** Online first, strictly alternating. */
  predicate Alternates(q: seq<bool>) {
    forall i :: 0 <= i < |q| ==> (q[i] <==> i % 2 == 0)
  }

  /** What an owed announcement says is the case, and only one not begun yet is missing
      from what was published. */
  predicate DebtInStep(h: Hub, d: Debt) {
    && d.online == (d.node in h.entries)
    && (d.to.None? ==> d.online == (|Published(h, d.node)| % 2 == 0))
    && (d.to.Some? ==> d.online == (|Published(h, d.node)| % 2 == 1))
  }

  predicate InStep(h: Hub, node: string) {
    && Alternates(Published(h, node))
    && (forall t, u :: t in h.owed && u in h.owed && h.owed[t].node == h.owed[u].node == node ==> t == u)
    && (forall t :: t in h.owed && h.owed[t].node == node ==> DebtInStep(h, h.owed[t]))
    && (!Owed(h, node) ==> (node in h.entries <==> |Published(h, node)| % 2 == 1))
  }

  lemma OweInStep(h: Hub, t: Task, node: string, online: bool, entries: Entries, other: string)
    requires InStep(h, other) && t !in h.owed && (node == other ==> !Owed(h, other))
    requires online == (node in entries) != (node in h.entries)
    requires other != node ==> (other in entries <==> other in h.entries)
    ensures InStep(Owe(h.(entries := entries), t, node, online), other)
  {
    var next := Owe(h.(entries := entries), t, node, online);
    assert forall u :: u in h.owed ==> next.owed[u] == h.owed[u];
    if other == node {
      assert next.owed[t].node == node;
    } else if Owed(h, other) {
      var u :| u in h.owed && h.owed[u].node == other;
      assert next.owed[u].node == other;
    }
  }

  lemma AnnounceInStep(h: Hub, t: Task, node: string)
    requires InStep(h, node) && t in h.owed && h.owed[t].to.None?
    ensures InStep(AfterAnnounce(h, t), node)
  {
    var next := AfterAnnounce(h, t);
    assert next.owed[t].node == h.owed[t].node;
    if Owed(h, node) {
      var u :| u in h.owed && h.owed[u].node == node;
      assert next.owed[u].node == node;
    }
  }

  lemma TellInStep(h: Hub, t: Task, c: nat, full: bool, node: string)
    requires InStep(h, node) && t in h.owed && h.owed[t].to.Some?
    ensures InStep(AfterTell(h, t, c, full), node)
  {
    var next := AfterTell(h, t, c, full);
    if Owed(h, node) {
      var u :| u in h.owed && h.owed[u].node == node;
      assert next.owed[u].node == node;
    }
  }

  lemma AnnouncedInStep(h: Hub, t: Task, node: string)
    requires InStep(h, node) && t in h.owed && h.owed[t].to.Some?
    ensures InStep(h.(owed := h.owed - {t}), node)
  {
    var next := h.(owed := h.owed - {t});
    if Owed(h, node) && h.owed[t].node != node {
      var u :| u in h.owed && h.owed[u].node == node;
      assert next.owed[u].node == node;
    }
  }

  lemma SameInStep(h: Hub, next: Hub, node: string)
    requires InStep(h, node) && next.owed == h.owed && next.published == h.published
    requires node in next.entries <==> node in h.entries
    ensures InStep(next, node)
  {
    assert Owed(next, node) == Owed(h, node);
  }

  lemma RegisterInStep(h: Hub, c: nat, joined: string, now: int, node: string)
    requires InStep(h, node) && Link(c) !in h.owed && (node == joined && joined !in h.entries ==> !Owed(h, node))
    ensures InStep(AfterRegister(h, c, joined, now), node)
  {
    if joined in h.entries {
      SameInStep(h, AfterRegister(h, c, joined, now), node);
    } else {
      SameInStep(h, h.(waiting := h.waiting - {c}), node);
      OweInStep(h.(waiting := h.waiting - {c}), Link(c), joined, true, h.entries[joined := Entry(c, c, now, [])], node);
    }
  }

  lemma RemoveInStep(h: Hub, t: Task, gone: string, node: string)
    requires InStep(h, node) && t !in h.owed && (node == gone && gone in h.entries ==> !Owed(h, node))
    ensures InStep(AfterRemove(h, t, gone), node)
  {
    if gone in h.entries {
      OweInStep(h, t, gone, false, h.entries - {gone}, node);
    }
  }

  lemma InStepStep(h: Hub, a: Action, node: string)
    requires Enabled(h, a) && InStep(h, node) && (Changes(h, a, node) ==> !Owed(h, node))
    ensures InStep(Apply(h, a), node)
  {
    match a
    case Register(c, joined, now) => RegisterInStep(h, c, joined, now, node);
    case RemoveIfCurrent(gone, c) =>
      if Owns(h.entries, gone, c) {
        RemoveInStep(h, Link(c), gone, node);
      }
    case Remove(operator, gone) => RemoveInStep(h, Operator(operator), gone, node);
    case Announce(t) => AnnounceInStep(h, t, node);
    case Tell(t, c, full) => TellInStep(h, t, c, full, node);
    case Announced(t) => AnnouncedInStep(h, t, node);
    case _ => SameInStep(h, Apply(h, a), node);
  }

  lemma {:induction false} InStepRun(h: Hub, acts: seq<Action>, node: string)
    requires Legal(h, acts) && InStep(h, node) && OneAtATime(h, acts, node)
    ensures InStep(Exec(h, acts), node)
    decreases |acts|
  {
    if acts == [] {
    } else {
      InStepStep(h, acts[0], node);
      InStepRun(Apply(h, acts[0]), acts[1..], node);
    }
  }

  /** In a run whose changes of a node are announced one at a time, what is announced
      about it strictly alternates, starts online, and where nothing is owed ends with its
      table membership; replacements are silent. */
  lemma PresenceAlternates(acts: seq<Action>, node: string)
    requires Legal(EMPTY, acts) && OneAtATime(EMPTY, acts, node)
    ensures var h := Exec(EMPTY, acts); var q := Published(h, node);
            && (forall i :: 0 <= i < |q| ==> (q[i] <==> i % 2 == 0))
            && (!Owed(h, node) ==> (node in h.entries <==> q != [] && q[|q| - 1]))
  {
    InStepRun(EMPTY, acts, node);
  }
}
