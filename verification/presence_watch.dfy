/** What watchers end up believing, over every run: when a watcher's last word about
    a node is the truth, in terms of the run's own steps. */
module PresenceWatch {
  import opened Connections
  import opened PresenceRuns
  import opened Frames

  // ---------------------------------------------------------------------
  // A run, state by state

  lemma {:induction false} PrefixLegal(h: Hub, acts: seq<Action>, n: nat)
    requires Legal(h, acts) && n <= |acts|
    ensures Legal(h, acts[..n])
    ensures n < |acts| ==> Enabled(Exec(h, acts[..n]), acts[n])
    decreases n
  {
    if n == 0 {
    } else {
      PrefixLegal(Apply(h, acts[0]), acts[1..], n - 1);
      assert acts[1..][..n - 1] == acts[..n][1..];
    }
  }

  /** The state before the `n`-th step. */
  function StateAt(acts: seq<Action>, n: nat): Hub
    requires Legal(EMPTY, acts) && n <= |acts|
  {
    PrefixLegal(EMPTY, acts, n);
    Exec(EMPTY, acts[..n])
  }

  lemma {:induction false} ExecSnoc(h: Hub, acts: seq<Action>, a: Action)
    requires Legal(h, acts) && Enabled(Exec(h, acts), a)
    ensures Legal(h, acts + [a]) && Exec(h, acts + [a]) == Apply(Exec(h, acts), a)
    decreases |acts|
  {
    if acts == [] {
      assert (acts + [a])[1..] == [];
    } else {
      ExecSnoc(Apply(h, acts[0]), acts[1..], a);
      assert (acts + [a])[1..] == acts[1..] + [a];
    }
  }

  lemma PrefixSnoc(h: Hub, acts: seq<Action>, n: nat)
    requires Legal(h, acts) && n < |acts|
    ensures Legal(h, acts[..n]) && Legal(h, acts[..n + 1])
    ensures Enabled(Exec(h, acts[..n]), acts[n]) && Exec(h, acts[..n + 1]) == Apply(Exec(h, acts[..n]), acts[n])
  {
    PrefixLegal(h, acts, n);
    ExecSnoc(h, acts[..n], acts[n]);
    assert acts[..n + 1] == acts[..n] + [acts[n]];
  }

  lemma StateNext(acts: seq<Action>, n: nat)
    requires Legal(EMPTY, acts) && n < |acts|
    ensures Enabled(StateAt(acts, n), acts[n]) && StateAt(acts, n + 1) == Apply(StateAt(acts, n), acts[n])
  {
    PrefixSnoc(EMPTY, acts, n);
  }

  predicate Online(acts: seq<Action>, n: nat, node: string)
    requires Legal(EMPTY, acts) && n <= |acts|
  {
    node in StateAt(acts, n).entries
  }

  /** How often the node came or went between two points of the run. */
  function Transitions(acts: seq<Action>, lo: nat, hi: nat, node: string): nat
    requires Legal(EMPTY, acts) && lo <= hi <= |acts|
    decreases hi
  {
    if lo == hi then 0
    else Transitions(acts, lo, hi - 1, node) + if Online(acts, hi, node) != Online(acts, hi - 1, node) then 1 else 0
  }

  lemma {:induction false} TransitionsParity(acts: seq<Action>, lo: nat, hi: nat, node: string)
    requires Legal(EMPTY, acts) && lo <= hi <= |acts|
    ensures Online(acts, lo, node) == Online(acts, hi, node) <==> Transitions(acts, lo, hi, node) % 2 == 0
    decreases hi
  {
    if lo == hi {
    } else {
      TransitionsParity(acts, lo, hi - 1, node);
    }
  }

  // ---------------------------------------------------------------------
  // The watch a link's belief rests on

  predicate ReplaysTo(a: Action, c: nat) {
    a.WatchReplay? && a.connection == c
  }

  /** Step `i` is the lookup of the watch still in progress at `n`. */
  predicate LookedUpAt(acts: seq<Action>, i: nat, n: nat, c: nat, target: string) {
    && i < n <= |acts| && acts[i] == WatchLookup(c, target)
    && forall k :: i < k < n ==> !ReplaysTo(acts[k], c)
  }

  /** The `k`-th step replays this target to this link. */
  predicate ReplaysTarget(acts: seq<Action>, k: nat, c: nat, target: string)
    requires Legal(EMPTY, acts) && k < |acts|
  {
    var h := StateAt(acts, k);
    ReplaysTo(acts[k], c) && c in h.pending && h.pending[c].target == target
  }

  /** Steps `i` and `j` are the lookup and the replay of the last watch of `target` that
      link `c` finished by `n`, and the link has not left since. */
  predicate LastWatch(acts: seq<Action>, i: nat, j: nat, n: nat, c: nat, target: string)
    requires Legal(EMPTY, acts)
  {
    && j < n <= |acts| && LookedUpAt(acts, i, j, c, target) && ReplaysTo(acts[j], c)
    && forall k :: j < k < n ==> acts[k] != Unwatch(c) && !ReplaysTarget(acts, k, c, target)
  }

  /** Subscribed, with the replay still to come. */
  predicate AwaitsReplay(h: Hub, c: nat, target: string) {
    c in h.pending && h.pending[c].subscribed && h.pending[c].target == target
  }

  /** A watch in progress starts with its lookup and holds what that saw until its end. */
  lemma PendingStep(h: Hub, a: Action, c: nat)
    requires Enabled(h, a)
    ensures c in h.pending && !ReplaysTo(a, c) ==>
      var p := Apply(h, a).pending; c in p && p[c].target == h.pending[c].target && p[c].online == h.pending[c].online
    ensures c in h.pending && ReplaysTo(a, c) ==> c !in Apply(h, a).pending
    ensures c !in h.pending && c in Apply(h, a).pending ==>
      var p := Apply(h, a).pending[c]; a == WatchLookup(c, p.target) && p.online == (p.target in h.entries)
  {
  }

  lemma {:induction false} FindLookup(acts: seq<Action>, n: nat, c: nat) returns (i: nat)
    requires Legal(EMPTY, acts) && n <= |acts| && c in StateAt(acts, n).pending
    ensures LookedUpAt(acts, i, n, c, StateAt(acts, n).pending[c].target)
    decreases n
  {
    assert n > 0;
    var h := StateAt(acts, n - 1);
    StateNext(acts, n - 1);
    PendingStep(h, acts[n - 1], c);
    if c in h.pending {
      i := FindLookup(acts, n - 1, c);
    } else {
      i := n - 1;
    }
  }

  /** The watch in progress holds what its lookup saw. */
  lemma {:induction false} PendingSince(acts: seq<Action>, i: nat, n: nat, c: nat, target: string)
    requires Legal(EMPTY, acts) && LookedUpAt(acts, i, n, c, target)
    ensures var h := StateAt(acts, n);
            c in h.pending && h.pending[c].target == target && h.pending[c].online == Online(acts, i, target)
    decreases n
  {
    var h := StateAt(acts, n - 1);
    StateNext(acts, n - 1);
    if n == i + 1 {
    } else {
      PendingSince(acts, i, n - 1, c, target);
      PendingStep(h, acts[n - 1], c);
    }
  }

  predicate SubscribedWatch(h: Hub) {
    forall c :: c in h.pending && h.pending[c].subscribed ==> Watches(h.watchers, h.pending[c].target, c)
  }

  lemma SubscribedWatchStep(h: Hub, a: Action)
    requires Enabled(h, a) && SubscribedWatch(h)
    ensures SubscribedWatch(Apply(h, a))
  {
    if a.Unwatch? {
      forall c | c in h.pending && h.pending[c].subscribed && c != a.connection
        ensures Watches(Unsubscribed(h.watchers, a.connection), h.pending[c].target, c)
      {
        UnsubscribedExactly(h.watchers, a.connection, h.pending[c].target, c);
      }
    }
  }

  lemma {:induction false} SubscribedWatchAt(acts: seq<Action>, n: nat)
    requires Legal(EMPTY, acts) && n <= |acts|
    ensures SubscribedWatch(StateAt(acts, n))
    decreases n
  {
    if n == 0 {
    } else {
      SubscribedWatchAt(acts, n - 1);
      StateNext(acts, n - 1);
      SubscribedWatchStep(StateAt(acts, n - 1), acts[n - 1]);
    }
  }

  predicate IsWatchStep(a: Action) {
    a.WatchLookup? || a.WatchSubscribe? || a.WatchReplay? || a.Unwatch?
  }

  lemma OthersKeepWatches(h: Hub, a: Action)
    requires Enabled(h, a) && !IsWatchStep(a)
    ensures Apply(h, a).watchers == h.watchers && Apply(h, a).pending == h.pending
  {
  }

  lemma WatchesBefore(h: Hub, a: Action, c: nat, target: string)
    requires Enabled(h, a) && Watches(Apply(h, a).watchers, target, c) && !AwaitsReplay(Apply(h, a), c, target)
    requires !(ReplaysTo(a, c) && h.pending[c].target == target)
    ensures Watches(h.watchers, target, c) && !AwaitsReplay(h, c, target) && a != Unwatch(c)
  {
    match a
    case Unwatch(to) => UnsubscribedExactly(h.watchers, to, target, c);
    case WatchSubscribe(s) => SubscribedBefore(h, s, c, target);
    case WatchLookup(_, _) =>
    case WatchReplay(_, _) =>
    case _ => OthersKeepWatches(h, a);
  }

  lemma SubscribedBefore(h: Hub, s: nat, c: nat, target: string)
    requires s in h.pending && !h.pending[s].subscribed
    requires Watches(AfterSubscribe(h, s).watchers, target, c) && !AwaitsReplay(AfterSubscribe(h, s), c, target)
    ensures Watches(h.watchers, target, c) && !AwaitsReplay(h, c, target)
  {
  }

  /** Whoever watches a node and has its replay finished such a watch. */
  lemma {:induction false} FindWatch(acts: seq<Action>, n: nat, c: nat, target: string) returns (i: nat, j: nat)
    requires Legal(EMPTY, acts) && n <= |acts|
    requires Watches(StateAt(acts, n).watchers, target, c) && !AwaitsReplay(StateAt(acts, n), c, target)
    ensures LastWatch(acts, i, j, n, c, target)
    decreases n
  {
    assert n > 0;
    StateNext(acts, n - 1);
    if ReplaysTarget(acts, n - 1, c, target) {
      j := n - 1;
      i := FindLookup(acts, j, c);
    } else {
      WatchesBefore(StateAt(acts, n - 1), acts[n - 1], c, target);
      i, j := FindWatch(acts, n - 1, c, target);
    }
  }

  // ---------------------------------------------------------------------
  // What it was told since

  /** The last thing a queue says about a node. */
  function LastAbout(q: seq<Notice>, target: string): Option<bool> {
    if q == [] then None
    else if q[|q| - 1].0 == target then Some(q[|q| - 1].1)
    else LastAbout(q[..|q| - 1], target)
  }

  lemma LastAboutSnoc(q: seq<Notice>, n: Notice, target: string)
    ensures LastAbout(q + [n], target) == if n.0 == target then Some(n.1) else LastAbout(q, target)
  {
    assert (q + [n])[..|q|] == q;
  }

  function LastWord(h: Hub, c: nat, target: string): Option<bool> {
    LastAbout(Mail(h.inbox, c), target)
  }

  lemma DeliverTells(h: Hub, to: nat, n: Notice, full: bool, c: nat, target: string)
    requires c !in Deliver(h, to, n, full).lossy
    ensures LastWord(Deliver(h, to, n, full), c, target) ==
            if to == c && n.0 == target then Some(n.1) else LastWord(h, c, target)
  {
    LastAboutSnoc(Mail(h.inbox, c), n, target);
  }

  /** The step tells this link about this target. */
  predicate Tells(h: Hub, a: Action, c: nat, target: string) {
    a.Tell? && a.connection == c && a.task in h.owed && h.owed[a.task].node == target
  }

  /** A step that tells a lossless watcher about the target is its last word; any other
      step but its own replay leaves that alone. */
  lemma StepTells(h: Hub, a: Action, c: nat, target: string)
    requires Enabled(h, a) && Watches(h.watchers, target, c) && a != Unwatch(c)
    requires c !in Apply(h, a).lossy && !(ReplaysTo(a, c) && h.pending[c].target == target)
    ensures Watches(Apply(h, a).watchers, target, c)
    ensures LastWord(Apply(h, a), c, target) ==
            if Tells(h, a, c, target) then Some(h.owed[a.task].online) else LastWord(h, c, target)
  {
    match a
    case Tell(t, to, full) => DeliverTells(h, to, (h.owed[t].node, h.owed[t].online), full, c, target);
    case WatchReplay(to, full) => DeliverTells(h, to, (h.pending[to].target, h.pending[to].online), full, c, target);
    case Unwatch(to) => UnsubscribedExactly(h.watchers, to, target, c);
    case _ => assert Apply(h, a).inbox == h.inbox;
  }

  lemma LossyStays(h: Hub, a: Action)
    requires Enabled(h, a)
    ensures h.lossy <= Apply(h, a).lossy
  {
  }

  /** What the link was last told about the target between two points of the run. */
  function LastTold(acts: seq<Action>, lo: nat, hi: nat, c: nat, target: string): Option<bool>
    requires Legal(EMPTY, acts) && lo <= hi <= |acts|
    decreases hi
  {
    if lo == hi then None
    else
      var h, a := StateAt(acts, hi - 1), acts[hi - 1];
      if Tells(h, a, c, target) then Some(h.owed[a.task].online) else LastTold(acts, lo, hi - 1, c, target)
  }

  /** Over every run: after its last watch of the target, a lossless watcher's last word
      is what it was last told since the replay, or else what the lookup saw. */
  lemma {:induction false} Believes(acts: seq<Action>, i: nat, j: nat, n: nat, c: nat, target: string)
    requires Legal(EMPTY, acts) && LastWatch(acts, i, j, n, c, target) && c !in StateAt(acts, n).lossy
    ensures Watches(StateAt(acts, n).watchers, target, c)
    ensures LastWord(StateAt(acts, n), c, target) ==
            var told := LastTold(acts, j + 1, n, c, target); if told.Some? then told else Some(Online(acts, i, target))
    decreases n
  {
    StateNext(acts, n - 1);
    var h := StateAt(acts, n - 1);
    if n == j + 1 {
      PendingSince(acts, i, j, c, target);
      SubscribedWatchAt(acts, j);
      DeliverTells(h, c, (target, h.pending[c].online), acts[j].full, c, target);
    } else {
      LossyStays(h, acts[n - 1]);
      Believes(acts, i, j, n - 1, c, target);
      assert !ReplaysTarget(acts, n - 1, c, target);
      StepTells(h, acts[n - 1], c, target);
    }
  }

  // ---------------------------------------------------------------------
  // When that is the truth

  /** Some announcement of the node has yet to reach the watcher. */
  predicate Underway(h: Hub, c: nat, node: string) {
    exists t :: t in h.owed && h.owed[t].node == node && ToReach(h.owed[t], c)
  }

  predicate ToReach(d: Debt, c: nat) {
    d.to.None? || c in d.to.value
  }

  /** A step that changes the node owes an announcement of it; other steps bring what is
      underway to the watcher or leave it underway. */
  lemma UnderwayStep(h: Hub, a: Action, c: nat, node: string)
    requires Enabled(h, a) && Watches(h.watchers, node, c)
    ensures Changes(h, a, node) ==> Underway(Apply(h, a), c, node)
    ensures Underway(h, c, node) ==> Underway(Apply(h, a), c, node) || Tells(h, a, c, node)
  {
    if Changes(h, a, node) {
      var t := if a.Remove? then Operator(a.operator) else Link(a.connection);
      assert Apply(h, a).owed[t] == Debt(node, node in Apply(h, a).entries, None);
    }
    if Underway(h, c, node) {
      var t :| t in h.owed && h.owed[t].node == node && ToReach(h.owed[t], c);
      if !Tells(h, a, c, node) {
        StillToReach(h, a, t, c, node);
      }
    }
  }

  lemma StillToReach(h: Hub, a: Action, t: Task, c: nat, node: string)
    requires Enabled(h, a) && Watches(h.watchers, node, c) && !Tells(h, a, c, node)
    requires t in h.owed && h.owed[t].node == node && ToReach(h.owed[t], c)
    ensures t in Apply(h, a).owed && Apply(h, a).owed[t].node == node && ToReach(Apply(h, a).owed[t], c)
  {
  }

  /** While changes of the target are announced one at a time: after the replay, either
      an announcement is underway, or the watcher was last told what is the case, or
      nothing has changed since. */
  lemma {:induction false} ToldTheTruth(acts: seq<Action>, j: nat, n: nat, c: nat, target: string)
    requires Legal(EMPTY, acts) && j < n <= |acts| && OneAtATime(EMPTY, acts, target)
    requires forall k :: j < k < n ==> Watches(StateAt(acts, k).watchers, target, c)
    ensures Underway(StateAt(acts, n), c, target) ||
            var told := LastTold(acts, j + 1, n, c, target);
            Online(acts, n, target) == if told.Some? then told.value else Online(acts, j + 1, target)
    decreases n
  {
    if n == j + 1 {
    } else {
      ToldTheTruth(acts, j, n - 1, c, target);
      var h, a := StateAt(acts, n - 1), acts[n - 1];
      StateNext(acts, n - 1);
      UnderwayStep(h, a, c, target);
      if Tells(h, a, c, target) {
        InStepAt(acts, n - 1, target);
        assert DebtInStep(h, h.owed[a.task]);
      }
    }
  }

  lemma {:induction false} OneAtATimePrefix(h: Hub, acts: seq<Action>, n: nat, node: string)
    requires Legal(h, acts) && OneAtATime(h, acts, node) && n <= |acts|
    ensures Legal(h, acts[..n]) && OneAtATime(h, acts[..n], node)
    decreases n
  {
    if n == 0 {
    } else {
      OneAtATimePrefix(Apply(h, acts[0]), acts[1..], n - 1, node);
      assert acts[1..][..n - 1] == acts[..n][1..];
    }
  }

  lemma InStepAt(acts: seq<Action>, n: nat, node: string)
    requires Legal(EMPTY, acts) && OneAtATime(EMPTY, acts, node) && n <= |acts|
    ensures InStep(StateAt(acts, n), node)
  {
    OneAtATimePrefix(EMPTY, acts, n, node);
    InStepRun(EMPTY, acts[..n], node);
  }

  lemma ReplayMovesNobody(acts: seq<Action>, j: nat, target: string)
    requires Legal(EMPTY, acts) && j < |acts| && acts[j].WatchReplay?
    ensures Online(acts, j + 1, target) == Online(acts, j, target)
  {
    StateNext(acts, j);
  }

  /** A link's watch survives its replay as long as it stays. */
  lemma {:induction false} WatchesSince(acts: seq<Action>, i: nat, j: nat, n: nat, c: nat, target: string)
    requires Legal(EMPTY, acts) && LastWatch(acts, i, j, n, c, target)
    ensures Watches(StateAt(acts, n).watchers, target, c)
    decreases n
  {
    StateNext(acts, n - 1);
    if n == j + 1 {
      PendingSince(acts, i, j, c, target);
      SubscribedWatchAt(acts, j);
    } else {
      WatchesSince(acts, i, j, n - 1, c, target);
      WatchesAfter(StateAt(acts, n - 1), acts[n - 1], c, target);
    }
  }

  lemma WatchesAfter(h: Hub, a: Action, c: nat, target: string)
    requires Enabled(h, a) && Watches(h.watchers, target, c) && a != Unwatch(c)
    ensures Watches(Apply(h, a).watchers, target, c)
  {
    if a.Unwatch? {
      UnsubscribedExactly(h.watchers, a.connection, target, c);
    }
  }

  /** In every run whose changes of the target are announced one at a time: a watcher
      that lost nothing, has its replay, and has no announcement of the target underway
      to it finished a last watch of its target. Its last word is the truth if and only
      if it was told about the target after that replay, or the target came and went an
      even number of times between its lookup and its replay. */
  lemma WatcherConverges(acts: seq<Action>, c: nat, target: string) returns (lookup: nat, replay: nat)
    requires Legal(EMPTY, acts) && OneAtATime(EMPTY, acts, target)
    requires var h := Exec(EMPTY, acts);
             Watches(h.watchers, target, c) && c !in h.lossy && !AwaitsReplay(h, c, target) && !Underway(h, c, target)
    ensures LastWatch(acts, lookup, replay, |acts|, c, target)
    ensures LastWord(Exec(EMPTY, acts), c, target).Some?
    ensures LastWord(Exec(EMPTY, acts), c, target) == Some(target in Exec(EMPTY, acts).entries) <==>
            LastTold(acts, replay + 1, |acts|, c, target).Some? || Transitions(acts, lookup, replay, target) % 2 == 0
  {
    var n := |acts|;
    assert acts[..n] == acts;
    lookup, replay := FindWatch(acts, n, c, target);
    Believes(acts, lookup, replay, n, c, target);
    forall k | replay < k < n
      ensures Watches(StateAt(acts, k).watchers, target, c)
    {
      WatchesSince(acts, lookup, replay, k, c, target);
    }
    ToldTheTruth(acts, replay, n, c, target);
    ReplayMovesNobody(acts, replay, target);
    TransitionsParity(acts, lookup, replay, target);
  }
}
