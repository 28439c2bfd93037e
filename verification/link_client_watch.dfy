/** Two guarantees of the relay client over every interleaving of its callers
    with link replacement: the order of declarations on each link, and that no
    recorded interest is forgotten. */
module LinkClientWatch {
  import opened LinkClient
  import F = Frames

  // ---------------------------------------------------------------------
  // Register comes first

  /** Nothing at all, a refused Register alone, or an accepted Register followed
      by anything but another one. */
  predicate RegisterFirst(log: seq<Attempt>) {
    log == [] ||
    (log[0].frame.Register? && (log[0].taken || |log| == 1) &&
     forall i :: 1 <= i < |log| ==> !log[i].frame.Register?)
  }

  predicate SlotMatches(task: Task, slot: F.Option<nat>) {
    if task.Idle? || task.Spawned? || task.Registered? then slot.None? else slot == F.Some(task.link)
  }

  predicate TaskMatches(task: Task, links: seq<seq<Attempt>>) {
    !task.Idle? ==>
      task.link == |links| - 1 &&
      (task.Spawned? <==> links[task.link] == []) &&
      (!task.Spawned? ==> links[task.link][0].taken)
  }

  predicate Ordered(s: State) {
    && SlotMatches(s.task, s.slot)
    && TaskMatches(s.task, s.links)
    && forall l :: 0 <= l < |s.links| ==> RegisterFirst(s.links[l])
  }

  lemma RecordKeepsFirst(links: seq<seq<Attempt>>, link: nat, frame: Sent, taken: bool)
    requires link < |links| && links[link] != [] && links[link][0].taken && !frame.Register?
    requires forall l :: 0 <= l < |links| ==> RegisterFirst(links[l])
    ensures forall l :: 0 <= l < |links| ==> RegisterFirst(Record(links, link, frame, taken)[l])
  {
  }

  lemma OrderedStep(s: State, a: Action)
    requires Enabled(s, a) && Ordered(s)
    ensures Ordered(Apply(s, a))
  {
    match a
    case Background(link, taken) => RecordKeepsFirst(s.links, link, Other, taken);
    case Call(t, ca) =>
      if s.slot.Some? {
        match ca
        case Declare(taken) => RecordKeepsFirst(s.links, s.slot.value, Watch(s.callers[t].node), taken);
        case SendRequest(taken) => RecordKeepsFirst(s.links, s.slot.value, AdminRequest(s.callers[t].seqNo), taken);
        case _ =>
      }
    case Link(la) =>
      if la.Redeclare? {
        RecordKeepsFirst(s.links, s.task.link, Watch(la.node), la.taken);
      }
  }

  // ---------------------------------------------------------------------
  // No interest is forgotten

  predicate Attempted(log: seq<Attempt>, node: string) {
    Attempt(Watch(node), true) in log || Attempt(Watch(node), false) in log
  }

  predicate SomeoneCommitted(callers: map<nat, Caller>, node: string) {
    exists t :: t in callers && callers[t] == Committed(node)
  }

  /** Some step that is bound to come will declare the interest on this link. */
  predicate Underway(s: State, node: string) {
    || s.task.Installed?
    || s.task.Drained?
    || (s.task.Redeclaring? && node in s.task.todo)
    || SomeoneCommitted(s.callers, node)
  }

  predicate Covered(s: State) {
    forall node :: node in s.interests && s.slot.Some? && s.slot.value < |s.links| ==>
      Underway(s, node) || Attempted(s.links[s.slot.value], node)
  }

  lemma CommittedKept(s: State, t: nat, ca: CallerAction, node: string)
    requires CallerEnabled(s, t, ca)
    requires SomeoneCommitted(s.callers, node) && (ca.Declare? ==> s.callers[t].node != node)
    ensures SomeoneCommitted(CallerStep(s, t, ca).callers, node)
  {
    var u :| u in s.callers && s.callers[u] == Committed(node);
    assert CallerStep(s, t, ca).callers[u] == Committed(node);
  }

  lemma AttemptedKept(links: seq<seq<Attempt>>, l: nat, link: nat, frame: Sent, taken: bool, node: string)
    requires l < |links| && Attempted(links[l], node)
    ensures Attempted(Record(links, link, frame, taken)[l], node)
  {
  }

  lemma CallerCovers(s: State, t: nat, ca: CallerAction, node: string)
    requires CallerEnabled(s, t, ca) && Ordered(s) && Covered(s)
    requires s.slot.Some? && node in CallerStep(s, t, ca).interests
    ensures var v := CallerStep(s, t, ca); Underway(v, node) || Attempted(v.links[v.slot.value], node)
  {
    var v := CallerStep(s, t, ca);
    var l := s.slot.value;
    if node !in s.interests {
      assert v.callers[t] == Committed(node);
    } else if ca.Declare? && s.callers[t].node == node {
      assert v.links[l][|s.links[l]|] == Attempt(Watch(node), ca.taken);
    } else if SomeoneCommitted(s.callers, node) {
      CommittedKept(s, t, ca, node);
    } else if !Underway(s, node) {
      var x := v.links[l];
      assert forall b :: Attempt(Watch(node), b) in s.links[l] ==> Attempt(Watch(node), b) in x;
    }
  }

  lemma LinkCovers(s: State, la: LinkAction, node: string)
    requires LinkEnabled(s, la) && Ordered(s) && Covered(s)
    requires LinkStep(s, la).slot.Some? && node in s.interests
    ensures var v := LinkStep(s, la); Underway(v, node) || Attempted(v.links[v.slot.value], node)
  {
    var v := LinkStep(s, la);
    if la.Redeclare? {
      var l := s.task.link;
      if la.node == node {
        assert v.links[l][|s.links[l]|] == Attempt(Watch(node), la.taken);
      } else if !Underway(s, node) {
        AttemptedKept(s.links, l, l, Watch(la.node), la.taken, node);
      }
    }
  }

  lemma CoveredStep(s: State, a: Action)
    requires Enabled(s, a) && Ordered(s) && Covered(s)
    ensures Covered(Apply(s, a))
  {
    var v := Apply(s, a);
    OrderedStep(s, a);
    forall node | node in v.interests && v.slot.Some? && v.slot.value < |v.links|
      ensures Underway(v, node) || Attempted(v.links[v.slot.value], node)
    {
      match a
      case Call(t, ca) => CallerCovers(s, t, ca, node);
      case Link(la) => LinkCovers(s, la, node);
      case Background(link, taken) =>
        if !Underway(s, node) {
          AttemptedKept(s.links, s.slot.value, link, Other, taken, node);
        }
    }
  }

  lemma {:induction false} WatchRun(s: State, acts: seq<Action>)
    requires Legal(s, acts) && Ordered(s) && Covered(s)
    ensures Ordered(Exec(s, acts)) && Covered(Exec(s, acts))
    decreases |acts|
  {
    if acts == [] {
    } else {
      OrderedStep(s, acts[0]);
      CoveredStep(s, acts[0]);
      WatchRun(Apply(s, acts[0]), acts[1..]);
    }
  }

  // ---------------------------------------------------------------------
  // The guarantees

  /** The frames the link's queue took, in order: what the relay reads. */
  function Wire(log: seq<Attempt>): seq<Sent> {
    if log == [] then []
    else Wire(log[..|log| - 1]) + if log[|log| - 1].taken then [log[|log| - 1].frame] else []
  }

  lemma {:induction false} WireShape(log: seq<Attempt>)
    requires RegisterFirst(log)
    ensures log == [] || !log[0].taken ==> Wire(log) == []
    ensures log != [] && log[0].taken ==>
      Wire(log) != [] && Wire(log)[0].Register? && forall i :: 1 <= i < |Wire(log)| ==> !Wire(log)[i].Register?
    decreases |log|
  {
    if |log| <= 1 {
    } else {
      WireShape(log[..|log| - 1]);
    }
  }

  lemma {:induction false} WireHas(log: seq<Attempt>, frame: Sent)
    ensures frame in Wire(log) <==> Attempt(frame, true) in log
    decreases |log|
  {
    if log == [] {
    } else {
      WireHas(log[..|log| - 1], frame);
      assert log == log[..|log| - 1] + [log[|log| - 1]];
    }
  }

  /** On every link of every run, what the relay reads is nothing or one Register
      followed by other frames: no Watch is ahead of its Register. */
  lemma RegisterPrecedesWatches(acts: seq<Action>, l: nat)
    requires Legal(INITIAL, acts) && l < |Exec(INITIAL, acts).links|
    ensures var wire := Wire(Exec(INITIAL, acts).links[l]);
            wire == [] || (wire[0].Register? && forall i :: 1 <= i < |wire| ==> !wire[i].Register?)
  {
    WatchRun(INITIAL, acts);
    WireShape(Exec(INITIAL, acts).links[l]);
  }

  /** In every reachable state, an interest the installed link has not read is
      about to be declared on it, or that link refused its declaration. */
  lemma NoInterestForgotten(acts: seq<Action>, node: string)
    requires Legal(INITIAL, acts)
    requires node in Exec(INITIAL, acts).interests && Exec(INITIAL, acts).slot.Some?
    ensures var s := Exec(INITIAL, acts);
            && s.slot.value < |s.links|
            && (Watch(node) in Wire(s.links[s.slot.value]) || Underway(s, node) ||
                Attempt(Watch(node), false) in s.links[s.slot.value])
  {
    WatchRun(INITIAL, acts);
    var s := Exec(INITIAL, acts);
    WireHas(s.links[s.slot.value], Watch(node));
  }

  // ---------------------------------------------------------------------
  // Which interests end up declared

  /** The step offers a declaration of `node` to link `l`. */
  predicate Offers(s: State, a: Action, node: string, l: nat) {
    || (a.Link? && a.la.Redeclare? && a.la.node == node && s.task.Redeclaring? && s.task.link == l)
    || (a.Call? && a.ca.Declare? && CallerEnabled(s, a.caller, a.ca)
        && s.callers[a.caller].node == node && s.slot == F.Some(l))
  }

  /** ... and the link's queue takes it, or refuses. */
  predicate Answers(s: State, a: Action, node: string, l: nat, taken: bool) {
    Offers(s, a, node, l) && taken == if a.Link? then a.la.taken else a.ca.taken
  }

  predicate SomeAnswer(s: State, acts: seq<Action>, node: string, l: nat, taken: bool)
    requires Legal(s, acts)
    decreases |acts|
  {
    acts != [] && (Answers(s, acts[0], node, l, taken) || SomeAnswer(Apply(s, acts[0]), acts[1..], node, l, taken))
  }

  predicate Logged(links: seq<seq<Attempt>>, l: nat, node: string, taken: bool) {
    l < |links| && Attempt(Watch(node), taken) in links[l]
  }

  lemma LoggedStep(s: State, a: Action, node: string, l: nat, taken: bool)
    requires Enabled(s, a) && Ordered(s)
    ensures Logged(Apply(s, a).links, l, node, taken) <==> Logged(s.links, l, node, taken) || Answers(s, a, node, l, taken)
  {
    var v := Apply(s, a);
    if l < |s.links| {
      assert v.links[l] == s.links[l] || (|v.links[l]| == |s.links[l]| + 1 && v.links[l][..|s.links[l]|] == s.links[l]);
      if v.links[l] != s.links[l] {
        assert v.links[l] == s.links[l] + [v.links[l][|s.links[l]|]];
      }
    }
  }

  lemma {:induction false} LoggedRun(s: State, acts: seq<Action>, node: string, l: nat, taken: bool)
    requires Legal(s, acts) && Ordered(s)
    ensures Logged(Exec(s, acts).links, l, node, taken) <==>
            Logged(s.links, l, node, taken) || SomeAnswer(s, acts, node, l, taken)
    decreases |acts|
  {
    if acts == [] {
    } else {
      LoggedStep(s, acts[0], node, l, taken);
      OrderedStep(s, acts[0]);
      LoggedRun(Apply(s, acts[0]), acts[1..], node, l, taken);
    }
  }

  /** Where nothing is underway, an interest was offered to the installed link, and the
      relay reads it there if and only if the link's queue took one of the offers. */
  lemma DeclaredExactly(acts: seq<Action>, node: string)
    requires Legal(INITIAL, acts)
    requires var s := Exec(INITIAL, acts); node in s.interests && s.slot.Some? && !Underway(s, node)
    ensures var s := Exec(INITIAL, acts);
            var l := s.slot.value;
            && l < |s.links|
            && (Watch(node) in Wire(s.links[l]) <==> SomeAnswer(INITIAL, acts, node, l, true))
            && (Watch(node) !in Wire(s.links[l]) ==> SomeAnswer(INITIAL, acts, node, l, false))
  {
    WatchRun(INITIAL, acts);
    var s := Exec(INITIAL, acts);
    var l := s.slot.value;
    WireHas(s.links[l], Watch(node));
    LoggedRun(INITIAL, acts, node, l, true);
    LoggedRun(INITIAL, acts, node, l, false);
  }

  // ---------------------------------------------------------------------
  // A live link that refused a declaration

  lemma {:induction false} Extend(s: State, acts: seq<Action>, a: Action)
    requires Legal(s, acts) && Enabled(Exec(s, acts), a)
    ensures Legal(s, acts + [a]) && Exec(s, acts + [a]) == Apply(Exec(s, acts), a)
    decreases |acts|
  {
    if acts == [] {
      assert (acts + [a])[1..] == [];
    } else {
      Extend(Apply(s, acts[0]), acts[1..], a);
      assert (acts + [a])[1..] == acts[1..] + [a];
    }
  }

  const REGISTERED := [Attempt(Register, true)]

  lemma FirstLinkServes() returns (acts: seq<Action>)
    ensures Legal(INITIAL, acts)
    ensures Exec(INITIAL, acts) == INITIAL.(slot := F.Some(0), links := [REGISTERED], task := Serving(0))
  {
    acts := [];
    Extend(INITIAL, acts, Link(Dial));
    acts := acts + [Link(Dial)];
    Extend(INITIAL, acts, Link(SendRegister(true)));
    acts := acts + [Link(SendRegister(true))];
    assert Exec(INITIAL, acts).links[0] == REGISTERED;
    assert Exec(INITIAL, acts).links == [REGISTERED];
    Extend(INITIAL, acts, Link(Install));
    acts := acts + [Link(Install)];
    assert FailPending(INITIAL.admin) == INITIAL.admin;
    Extend(INITIAL, acts, Link(Drain));
    acts := acts + [Link(Drain)];
    Extend(INITIAL, acts, Link(Snapshot));
    acts := acts + [Link(Snapshot)];
    Extend(INITIAL, acts, Link(Serve));
    acts := acts + [Link(Serve)];
  }

  /** A link that refuses a declaration (its queue was full) and lives on keeps
      that interest undeclared; watching the node again changes nothing. */
  lemma RefusedWatchStaysUndeclared() returns (acts: seq<Action>)
    ensures Legal(INITIAL, acts)
    ensures var s := Exec(INITIAL, acts);
            && s.task == Serving(0) && "n" in s.interests && s.callers == map[]
            && |s.links| == 1 && Watch("n") !in Wire(s.links[0])
            && Enabled(s, Call(0, RecordWatch("n"))) && Apply(s, Call(0, RecordWatch("n"))) == s
  {
    acts := FirstLinkServes();
    Extend(INITIAL, acts, Call(0, RecordWatch("n")));
    acts := acts + [Call(0, RecordWatch("n"))];
    Extend(INITIAL, acts, Call(0, Declare(false)));
    acts := acts + [Call(0, Declare(false))];
    var s := Exec(INITIAL, acts);
    assert s.links[0] == REGISTERED + [Attempt(Watch("n"), false)];
    WireHas(s.links[0], Watch("n"));
    assert s.interests + {"n"} == s.interests;
  }
}
