/** Announcements that overtake each other, and how a watcher stays misinformed. */
module PresenceRaces {
  import opened Connections
  import opened Frames
  import opened PresenceRuns
  import opened PresenceWatch

  /** Lost nothing, awaits nothing, and its last word about the node is wrong for good:
      nothing about it is owed. */
  predicate Misled(h: Hub, node: string, c: nat) {
    && Watches(h.watchers, node, c) && c !in h.lossy && c !in h.pending && !Owed(h, node)
    && LastWord(h, c, node) == Some(node !in h.entries)
  }

  // ---------------------------------------------------------------------
  // Exactly when a change can mislead a watcher

  /** The watcher stays, starts no further watch, and the node does not change again. */
  predicate Calm(h: Hub, acts: seq<Action>, c: nat, node: string)
    requires Legal(h, acts)
    decreases |acts|
  {
    acts == [] ||
    (&& !Changes(h, acts[0], node) && acts[0] != Unwatch(c) && !(acts[0].WatchLookup? && acts[0].connection == c)
     && Calm(Apply(h, acts[0]), acts[1..], c, node))
  }

  ghost predicate CanMislead(h: Hub, c: nat, node: string) {
    exists acts :: Legal(h, acts) && Calm(h, acts, c, node) && Misled(Exec(h, acts), node, c)
  }

  /** A watcher with its replay that has lost nothing. */
  predicate Steady(h: Hub, c: nat, node: string) {
    Watches(h.watchers, node, c) && c !in h.lossy && c !in h.pending
  }

  /** An announcement of this state of the node has yet to reach the watcher. */
  predicate UnderwayAs(h: Hub, c: nat, node: string, online: bool) {
    exists t :: t in h.owed && h.owed[t].node == node && h.owed[t].online == online && ToReach(h.owed[t], c)
  }

  /** The watcher has been told the truth, or will be, and nothing else is underway. */
  predicate Informed(h: Hub, c: nat, node: string) {
    && Steady(h, c, node) && !UnderwayAs(h, c, node, node !in h.entries)
    && (Underway(h, c, node) || LastWord(h, c, node) == Some(node in h.entries))
  }

  lemma NothingNewUnderway(h: Hub, a: Action, c: nat, node: string, online: bool)
    requires Enabled(h, a) && !Changes(h, a, node) && Watches(h.watchers, node, c) && !UnderwayAs(h, c, node, online)
    ensures !UnderwayAs(Apply(h, a), c, node, online)
  {
    forall t | t in Apply(h, a).owed && Apply(h, a).owed[t].node == node && Apply(h, a).owed[t].online == online
      ensures !ToReach(Apply(h, a).owed[t], c)
    {
      assert t in h.owed && h.owed[t].node == node && h.owed[t].online == online;
    }
  }

  lemma InformedStep(h: Hub, a: Action, c: nat, node: string)
    requires Enabled(h, a) && Informed(h, c, node)
    requires !Changes(h, a, node) && a != Unwatch(c) && !(a.WatchLookup? && a.connection == c)
    ensures c in Apply(h, a).lossy || Informed(Apply(h, a), c, node)
  {
    if c !in Apply(h, a).lossy {
      NothingNewUnderway(h, a, c, node, node !in h.entries);
      UnderwayStep(h, a, c, node);
      StepTells(h, a, c, node);
      if Tells(h, a, c, node) {
        TellsTheTruth(h, a, c, node);
      }
      StaysSteady(h, a, c, node);
    }
  }

  lemma TellsTheTruth(h: Hub, a: Action, c: nat, node: string)
    requires Enabled(h, a) && Tells(h, a, c, node) && !UnderwayAs(h, c, node, node !in h.entries)
    ensures h.owed[a.task].online == (node in h.entries)
  {
    assert ToReach(h.owed[a.task], c);
  }

  lemma StaysSteady(h: Hub, a: Action, c: nat, node: string)
    requires Enabled(h, a) && Steady(h, c, node) && c !in Apply(h, a).lossy
    requires a != Unwatch(c) && !(a.WatchLookup? && a.connection == c)
    ensures Steady(Apply(h, a), c, node)
  {
    if a.Unwatch? {
      UnsubscribedExactly(h.watchers, a.connection, node, c);
    } else if !IsWatchStep(a) {
      OthersKeepWatches(h, a);
    }
  }

  lemma LossyForever(h: Hub, acts: seq<Action>)
    requires Legal(h, acts)
    ensures h.lossy <= Exec(h, acts).lossy
    decreases |acts|
  {
    if acts == [] {
    } else {
      LossyStays(h, acts[0]);
      LossyForever(Apply(h, acts[0]), acts[1..]);
    }
  }

  lemma {:induction false} InformedRun(h: Hub, acts: seq<Action>, c: nat, node: string)
    requires Legal(h, acts) && Calm(h, acts, c, node) && Informed(h, c, node)
    ensures c in Exec(h, acts).lossy || Informed(Exec(h, acts), c, node)
    decreases |acts|
  {
    if acts == [] {
    } else {
      InformedStep(h, acts[0], c, node);
      if c in Apply(h, acts[0]).lossy {
        LossyForever(Apply(h, acts[0]), acts[1..]);
      } else {
        InformedRun(Apply(h, acts[0]), acts[1..], c, node);
      }
    }
  }

  // The continuation that misleads: everybody else announces first.

  lemma {:induction false} CalmConcat(h: Hub, xs: seq<Action>, ys: seq<Action>, c: nat, node: string)
    requires Legal(h, xs) && Legal(Exec(h, xs), ys) && Calm(h, xs, c, node) && Calm(Exec(h, xs), ys, c, node)
    ensures Legal(h, xs + ys) && Calm(h, xs + ys, c, node) && Exec(h, xs + ys) == Exec(Exec(h, xs), ys)
    decreases |xs|
  {
    if xs == [] {
      assert xs + ys == ys;
    } else {
      assert (xs + ys)[0] == xs[0] && (xs + ys)[1..] == xs[1..] + ys;
      CalmConcat(Apply(h, xs[0]), xs[1..], ys, c, node);
    }
  }

  lemma CalmFirst(h: Hub, a: Action, rest: seq<Action>, c: nat, node: string) returns (acts: seq<Action>)
    requires Enabled(h, a) && (a.Announce? || a.Tell? || a.Announced?)
    requires Legal(Apply(h, a), rest) && Calm(Apply(h, a), rest, c, node)
    ensures Legal(h, acts) && Calm(h, acts, c, node) && Exec(h, acts) == Exec(Apply(h, a), rest)
  {
    acts := [a] + rest;
    assert acts[0] == a && acts[1..] == rest;
  }

  /** What finishing one announcement leaves as it was. */
  predicate OnlyAnnounced(h: Hub, next: Hub, t: Task) {
    && next.owed == h.owed - {t} && next.entries == h.entries && next.watchers == h.watchers
    && next.pending == h.pending && next.lossy == h.lossy
  }

  lemma TellOne(h: Hub, t: Task, to: nat, c: nat)
    requires Enabled(h, Tell(t, to, false)) && c !in h.lossy
    ensures var d, next := h.owed[t], Apply(h, Tell(t, to, false));
            && t in next.owed && next.owed[t] == d.(to := Some(d.to.value - {to})) && next.owed - {t} == h.owed - {t}
            && next.entries == h.entries && next.watchers == h.watchers && next.pending == h.pending
            && next.lossy == h.lossy
            && LastWord(next, c, d.node) == if to == c then Some(d.online) else LastWord(h, c, d.node)
  {
    DeliverTells(h, to, (h.owed[t].node, h.owed[t].online), false, c, h.owed[t].node);
  }

  lemma {:induction false} TellEveryone(h: Hub, t: Task, c: nat) returns (acts: seq<Action>)
    requires t in h.owed && h.owed[t].to.Some? && c !in h.lossy
    ensures Legal(h, acts) && Calm(h, acts, c, h.owed[t].node) && OnlyAnnounced(h, Exec(h, acts), t)
    ensures LastWord(Exec(h, acts), c, h.owed[t].node) ==
            if c in h.owed[t].to.value then Some(h.owed[t].online) else LastWord(h, c, h.owed[t].node)
    decreases |h.owed[t].to.value|
  {
    var d := h.owed[t];
    if d.to.value == {} {
      acts := CalmFirst(h, Announced(t), [], c, d.node);
    } else {
      var to :| to in d.to.value;
      TellOne(h, t, to, c);
      acts := TellEveryone(Apply(h, Tell(t, to, false)), t, c);
      acts := CalmFirst(h, Tell(t, to, false), acts, c, d.node);
    }
  }

  lemma FinishAnnouncing(h: Hub, t: Task, c: nat) returns (acts: seq<Action>)
    requires t in h.owed && Steady(h, c, h.owed[t].node)
    ensures Legal(h, acts) && Calm(h, acts, c, h.owed[t].node) && OnlyAnnounced(h, Exec(h, acts), t)
    ensures ToReach(h.owed[t], c) ==> LastWord(Exec(h, acts), c, h.owed[t].node) == Some(h.owed[t].online)
  {
    if h.owed[t].to.Some? {
      acts := TellEveryone(h, t, c);
    } else {
      var next := Apply(h, Announce(t));
      acts := TellEveryone(next, t, c);
      assert next.owed - {t} == h.owed - {t};
      acts := CalmFirst(h, Announce(t), acts, c, h.owed[t].node);
    }
  }

  /** Every other announcement of the node is finished before this one. */
  lemma {:induction false} FinishOthers(h: Hub, t: Task, c: nat) returns (acts: seq<Action>)
    requires t in h.owed && Steady(h, c, h.owed[t].node)
    ensures Legal(h, acts) && Calm(h, acts, c, h.owed[t].node)
    ensures var u := Exec(h, acts);
            && t in u.owed && u.owed[t] == h.owed[t] && Steady(u, c, h.owed[t].node) && u.entries == h.entries
            && forall o :: o in u.owed && u.owed[o].node == h.owed[t].node ==> o == t
    decreases |h.owed|
  {
    var node := h.owed[t].node;
    if forall o :: o in h.owed && h.owed[o].node == node ==> o == t {
      acts := [];
    } else {
      var o :| o in h.owed && h.owed[o].node == node && o != t;
      acts := FinishAnnouncing(h, o, c);
      var next := Exec(h, acts);
      assert next.owed.Keys == h.owed.Keys - {o};
      var more := FinishOthers(next, t, c);
      CalmConcat(h, acts, more, c, node);
      acts := acts + more;
    }
  }

  lemma LastAnnouncementMisleads(h: Hub, t: Task, c: nat) returns (acts: seq<Action>)
    requires t in h.owed && Steady(h, c, h.owed[t].node) && ToReach(h.owed[t], c)
    requires h.owed[t].online == (h.owed[t].node !in h.entries)
    ensures Legal(h, acts) && Calm(h, acts, c, h.owed[t].node) && Misled(Exec(h, acts), h.owed[t].node, c)
  {
    acts := FinishOthers(h, t, c);
    var u := Exec(h, acts);
    var more := FinishAnnouncing(u, t, c);
    CalmConcat(h, acts, more, c, h.owed[t].node);
    acts := acts + more;
  }

  /** In every state, for every change of a node and every watcher of it that lost nothing
      and has its replay: some continuation without another change leaves the watcher
      misled if and only if an announcement of the state that the node is leaving has yet
      to reach it. */
  lemma ChangeMisleadsExactly(h: Hub, a: Action, c: nat, node: string)
    requires Enabled(h, a) && Changes(h, a, node) && Steady(h, c, node)
    ensures CanMislead(Apply(h, a), c, node) <==> UnderwayAs(h, c, node, node in h.entries)
  {
    UnderwayStep(h, a, c, node);
    ChangeOwes(h, a, c, node);
    MisleadsExactly(Apply(h, a), c, node);
  }

  lemma MisleadsExactly(h: Hub, c: nat, node: string)
    requires Steady(h, c, node) && Underway(h, c, node)
    ensures CanMislead(h, c, node) <==> UnderwayAs(h, c, node, node !in h.entries)
  {
    if UnderwayAs(h, c, node, node !in h.entries) {
      var t :| t in h.owed && h.owed[t].node == node && h.owed[t].online == (node !in h.entries) && ToReach(h.owed[t], c);
      var acts := LastAnnouncementMisleads(h, t, c);
    } else if CanMislead(h, c, node) {
      var acts :| Legal(h, acts) && Calm(h, acts, c, node) && Misled(Exec(h, acts), node, c);
      InformedRun(h, acts, c, node);
    }
  }

  lemma ChangeAddsDebt(h: Hub, a: Action, node: string) returns (t: Task)
    requires Enabled(h, a) && Changes(h, a, node)
    ensures t !in h.owed && Apply(h, a).owed == h.owed[t := Debt(node, node !in h.entries, None)]
    ensures Apply(h, a).watchers == h.watchers && Apply(h, a).pending == h.pending && Apply(h, a).lossy == h.lossy
  {
    t := if a.Remove? then Operator(a.operator) else Link(a.connection);
  }

  /** A change adds one announcement, of the new state, to those underway. */
  lemma ChangeOwes(h: Hub, a: Action, c: nat, node: string)
    requires Enabled(h, a) && Changes(h, a, node) && Steady(h, c, node)
    ensures Steady(Apply(h, a), c, node)
    ensures UnderwayAs(Apply(h, a), c, node, node in h.entries) <==> UnderwayAs(h, c, node, node in h.entries)
  {
    var t := ChangeAddsDebt(h, a, node);
    if UnderwayAs(h, c, node, node in h.entries) {
      var u :| u in h.owed && h.owed[u].node == node && h.owed[u].online == (node in h.entries) && ToReach(h.owed[u], c);
      assert Apply(h, a).owed[u] == h.owed[u];
    }
  }

  // ---------------------------------------------------------------------
  // The queue of a link that has left

  /** Some announcement has read this link as a watcher and not told it yet. */
  predicate StillToTell(h: Hub, c: nat) {
    exists t :: t in h.owed && h.owed[t].to.Some? && c in h.owed[t].to.value
  }

  /** The link's task has ended: it watches nothing and has no watch in progress. */
  ghost predicate HasLeft(h: Hub, c: nat) {
    c in h.left && c !in h.pending && forall node :: !Watches(h.watchers, node, c)
  }

  lemma LeavingLeaves(h: Hub, c: nat)
    requires Enabled(h, Unwatch(c))
    ensures HasLeft(Apply(h, Unwatch(c)), c)
    ensures StillToTell(Apply(h, Unwatch(c)), c) <==> StillToTell(h, c)
  {
    forall node
      ensures !Watches(Unsubscribed(h.watchers, c), node, c)
    {
      UnsubscribedExactly(h.watchers, c, node, c);
    }
  }

  lemma LeftStaysLeft(h: Hub, a: Action, c: nat)
    requires Enabled(h, a) && HasLeft(h, c)
    ensures HasLeft(Apply(h, a), c)
  {
    if a.Unwatch? {
      forall node
        ensures !Watches(Unsubscribed(h.watchers, a.connection), node, c)
      {
        UnsubscribedExactly(h.watchers, a.connection, node, c);
      }
    }
  }

  lemma NoNewTells(h: Hub, a: Action, c: nat)
    requires Enabled(h, a) && HasLeft(h, c) && !StillToTell(h, c)
    ensures !StillToTell(Apply(h, a), c) && Mail(Apply(h, a).inbox, c) == Mail(h.inbox, c)
  {
    var next := Apply(h, a);
    forall t | t in next.owed && next.owed[t].to.Some?
      ensures c !in next.owed[t].to.value
    {
      if a == Announce(t) {
        assert !Watches(h.watchers, h.owed[t].node, c);
      } else {
        assert t in h.owed && h.owed[t].to.Some? && next.owed[t].to.value <= h.owed[t].to.value;
      }
    }
  }

  lemma {:induction false} QueueStaysAsItIs(h: Hub, acts: seq<Action>, c: nat)
    requires Legal(h, acts) && HasLeft(h, c) && !StillToTell(h, c)
    ensures Mail(Exec(h, acts).inbox, c) == Mail(h.inbox, c)
    decreases |acts|
  {
    if acts == [] {
    } else {
      LeftStaysLeft(h, acts[0], c);
      NoNewTells(h, acts[0], c);
      QueueStaysAsItIs(Apply(h, acts[0]), acts[1..], c);
    }
  }

  ghost predicate CanTouchQueue(h: Hub, c: nat) {
    exists acts :: Legal(h, acts) && Mail(Exec(h, acts).inbox, c) != Mail(h.inbox, c)
  }

  /** Whenever a link leaves and its interests are purged, some continuation still puts a
      notice on its queue if and only if an announcement had already read it as a watcher. */
  lemma DeadQueueTouchedExactly(h: Hub, c: nat)
    requires Enabled(h, Unwatch(c))
    ensures CanTouchQueue(Apply(h, Unwatch(c)), c) <==> StillToTell(h, c)
  {
    var next := Apply(h, Unwatch(c));
    LeavingLeaves(h, c);
    if StillToTell(h, c) {
      var t :| t in next.owed && next.owed[t].to.Some? && c in next.owed[t].to.value;
      var acts := [Tell(t, c, false)];
      assert acts[1..] == [] && Legal(next, acts) && Exec(next, acts) == Apply(next, acts[0]);
      assert |Mail(Exec(next, acts).inbox, c)| == |Mail(next.inbox, c)| + 1;
    } else {
      forall acts | Legal(next, acts)
        ensures Mail(Exec(next, acts).inbox, c) == Mail(next.inbox, c)
      {
        QueueStaysAsItIs(next, acts, c);
      }
    }
  }

  // ---------------------------------------------------------------------
  // Three ways to stay misinformed

  ghost predicate Reaches(acts: seq<Action>, h: Hub) {
    Legal(EMPTY, acts) && Exec(EMPTY, acts) == h
  }

  lemma Then(acts: seq<Action>, h: Hub, a: Action) returns (longer: seq<Action>, next: Hub)
    requires Reaches(acts, h) && Enabled(h, a)
    ensures next == Apply(h, a) && Reaches(longer, next)
  {
    ExecSnoc(EMPTY, acts, a);
    longer, next := acts + [a], Apply(h, a);
  }

  /** A task announces what it owes to the one watcher there is. */
  lemma AnnounceToOne(acts: seq<Action>, h: Hub, t: Task) returns (longer: seq<Action>, next: Hub)
    requires Reaches(acts, h) && t in h.owed && h.owed[t].to.None? && WatchersOf(h.watchers, h.owed[t].node) == {0}
    ensures Reaches(longer, next)
    ensures var d := h.owed[t];
            next == h.(owed := h.owed - {t}, inbox := h.inbox[0 := Mail(h.inbox, 0) + [(d.node, d.online)]],
                       published := h.published[d.node := Published(h, d.node) + [d.online]])
  {
    longer, next := Then(acts, h, Announce(t));
    longer, next := Then(longer, next, Tell(t, 0, false));
    assert next.owed[t].to.value == {};
    longer, next := Then(longer, next, Announced(t));
    assert next.owed == h.owed - {t};
  }

  /** A link joins with a node nobody watches, and announces it to nobody. */
  lemma Join(acts: seq<Action>, h: Hub, node: string) returns (longer: seq<Action>, next: Hub)
    requires Reaches(acts, h) && h.waiting == {} && h.owed == map[] && h.watchers == map[] && node !in h.entries
    ensures Reaches(longer, next)
    ensures var c := h.nextConnection;
            next == h.(entries := h.entries[node := Entry(c, c, 0, [])], nextConnection := c + 1,
                       published := h.published[node := Published(h, node) + [true]])
  {
    var c := h.nextConnection;
    longer, next := Then(acts, h, Allocate);
    longer, next := Then(longer, next, Action.Register(c, node, 0));
    longer, next := Then(longer, next, Announce(Link(c)));
    longer, next := Then(longer, next, Announced(Link(c)));
    assert next.waiting == {} && next.owed == map[];
  }

  /** The watcher registers as link 0, the node as link 1, and link 0 looks the node up. */
  lemma LookedUp(watcher: string, node: string) returns (acts: seq<Action>, h: Hub)
    requires watcher != node
    ensures Reaches(acts, h)
    ensures h == Hub(map[watcher := Entry(0, 0, 0, []), node := Entry(1, 1, 0, [])], 2, {}, map[], map[],
                     map[0 := Pending(node, true, false)], map[], {}, map[watcher := [true], node := [true]], {})
  {
    acts, h := Join([], EMPTY, watcher);
    acts, h := Join(acts, h, node);
    acts, h := Then(acts, h, WatchLookup(0, node));
    assert [] + [true] == [true];
  }

  /** The target leaves between the lookup and the subscription: nobody tells the
      watcher. */
  lemma StaleReplay(watcher: string, node: string) returns (acts: seq<Action>)
    requires watcher != node
    ensures Legal(EMPTY, acts) && Misled(Exec(EMPTY, acts), node, 0) && node !in Exec(EMPTY, acts).entries
  {
    var h;
    acts, h := LookedUp(watcher, node);
    acts, h := Then(acts, h, Remove(0, node));
    acts, h := Then(acts, h, Announce(Operator(0)));
    acts, h := Then(acts, h, Announced(Operator(0)));
    acts, h := Then(acts, h, WatchSubscribe(0));
    DeliverTells(h, 0, (node, true), false, 0, node);
    acts, h := Then(acts, h, WatchReplay(0, false));
  }

  /** The target leaves between the subscription and the replay: the watcher is told,
      and then told otherwise. */
  lemma OvertakenReplay(watcher: string, node: string) returns (acts: seq<Action>)
    requires watcher != node
    ensures Legal(EMPTY, acts) && Misled(Exec(EMPTY, acts), node, 0) && node !in Exec(EMPTY, acts).entries
    ensures Mail(Exec(EMPTY, acts).inbox, 0) == [(node, false), (node, true)]
  {
    var h;
    acts, h := LookedUp(watcher, node);
    acts, h := Then(acts, h, WatchSubscribe(0));
    assert WatchersOf(h.watchers, node) == {0};
    acts, h := Then(acts, h, Remove(0, node));
    acts, h := AnnounceToOne(acts, h, Operator(0));
    assert h.owed == map[] && Mail(h.inbox, 0) == [(node, false)];
    DeliverTells(h, 0, (node, true), false, 0, node);
    acts, h := Then(acts, h, WatchReplay(0, false));
  }

  /** The watcher has its replay; then the node's link goes and takes its entry along. */
  lemma LinkLost(watcher: string, node: string) returns (acts: seq<Action>, h: Hub)
    requires watcher != node
    ensures Reaches(acts, h) && Steady(h, 0, node) && WatchersOf(h.watchers, node) == {0}
    ensures node !in h.entries && h.nextConnection == 2 && h.waiting == {} && Published(h, node) == [true]
    ensures h.owed == map[Link(1) := Debt(node, false, None)]
  {
    acts, h := LookedUp(watcher, node);
    acts, h := Then(acts, h, WatchSubscribe(0));
    acts, h := Then(acts, h, WatchReplay(0, false));
    acts, h := Then(acts, h, RemoveIfCurrent(node, 1));
  }

  /** Before the lost link announces that, the node is back on link 2, and its new link
      announces it first: online, online, offline, with the node in the table. */
  lemma OvertakenAnnouncement(watcher: string, node: string) returns (acts: seq<Action>)
    requires watcher != node
    ensures Legal(EMPTY, acts) && Misled(Exec(EMPTY, acts), node, 0) && node in Exec(EMPTY, acts).entries
    ensures Published(Exec(EMPTY, acts), node) == [true, true, false]
  {
    var h;
    acts, h := LinkLost(watcher, node);
    acts, h := Then(acts, h, Allocate);
    acts, h := Then(acts, h, Action.Register(2, node, 0));
    acts, h := AnnounceToOne(acts, h, Link(2));
    assert h.owed == map[Link(1) := Debt(node, false, None)];
    LastAboutSnoc(Mail(h.inbox, 0), (node, false), node);
    acts, h := AnnounceToOne(acts, h, Link(1));
    assert h.owed == map[];
  }
}
