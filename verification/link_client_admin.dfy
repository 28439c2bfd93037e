/** Admin requests of the relay client: every request keeps its own sequence
    number, is resolved at most once, and cannot outlive the replacement of the
    link it went out on. */
module LinkClientAdmin {
  import opened LinkClient
  import opened LinkClientWatch

  /** Sequence numbers come from one counter; a request leaves the pending map for
      good when it is resolved. */
  predicate Numbered(a: Admin) {
    && (forall n :: n in a.pending ==> n < a.next && n !in a.outcomes)
    && (forall n :: n in a.outcomes ==> n < a.next)
    && (forall n :: n in a.sentOn ==> n < a.next)
  }

  predicate HasNumber(c: Caller, n: nat) {
    !c.Committed? && c.seqNo == n
  }

  /** No two callers share a number. */
  predicate Distinct(callers: map<nat, Caller>, next: nat) {
    && (forall t :: t in callers && !callers[t].Committed? ==> callers[t].seqNo < next)
    && (forall t, u :: t in callers && u in callers && !callers[t].Committed? && HasNumber(callers[u], callers[t].seqNo)
          ==> t == u)
  }

  /** A caller that has not given up is still pending or already resolved. */
  predicate Held(callers: map<nat, Caller>, a: Admin) {
    && (forall t :: t in callers && (callers[t].Waiting? || callers[t].Requesting?) ==>
          callers[t].seqNo in a.pending || callers[t].seqNo in a.outcomes)
    && (forall t :: t in callers && callers[t].Waiting? ==> callers[t].seqNo in a.sentOn)
  }

  predicate Owned(s: State) {
    Distinct(s.callers, s.admin.next) && Held(s.callers, s.admin)
  }

  predicate PastDrain(task: Task) {
    task.Drained? || task.Redeclaring? || task.Serving?
  }

  /** Past the drain, whatever is pending and sent was sent on the current link. */
  predicate OnCurrentLink(s: State) {
    PastDrain(s.task) ==> forall n :: n in s.admin.pending && n in s.admin.sentOn ==> s.admin.sentOn[n] == s.task.link
  }

  lemma NumberedStep(s: State, a: Action)
    requires Enabled(s, a) && Numbered(s.admin) && Owned(s)
    ensures Numbered(Apply(s, a).admin)
  {
  }

  lemma DistinctStep(s: State, t: nat, ca: CallerAction)
    requires CallerEnabled(s, t, ca) && Distinct(s.callers, s.admin.next)
    ensures Distinct(CallerStep(s, t, ca).callers, CallerStep(s, t, ca).admin.next)
  {
  }

  lemma HeldByCaller(s: State, t: nat, ca: CallerAction)
    requires CallerEnabled(s, t, ca) && Owned(s)
    ensures Held(CallerStep(s, t, ca).callers, CallerStep(s, t, ca).admin)
  {
  }

  lemma OwnedStep(s: State, a: Action)
    requires Enabled(s, a) && Owned(s)
    ensures Owned(Apply(s, a))
  {
    if a.Call? {
      DistinctStep(s, a.caller, a.ca);
      HeldByCaller(s, a.caller, a.ca);
    }
  }

  lemma OnCurrentLinkStep(s: State, a: Action)
    requires Enabled(s, a) && Ordered(s) && Numbered(s.admin) && OnCurrentLink(s)
    ensures OnCurrentLink(Apply(s, a))
  {
  }

  lemma {:induction false} AdminRun(s: State, acts: seq<Action>)
    requires Legal(s, acts)
    requires Ordered(s) && Numbered(s.admin) && Owned(s) && OnCurrentLink(s)
    ensures var v := Exec(s, acts); Ordered(v) && Numbered(v.admin) && Owned(v) && OnCurrentLink(v)
    decreases |acts|
  {
    if acts == [] {
    } else {
      OrderedStep(s, acts[0]);
      NumberedStep(s, acts[0]);
      OwnedStep(s, acts[0]);
      OnCurrentLinkStep(s, acts[0]);
      AdminRun(Apply(s, acts[0]), acts[1..]);
    }
  }

  /** In every reachable state past a link's drain, a caller still waiting for an
      answer sent its request on that very link. */
  lemma NoRequestOutlivesReplacement(acts: seq<Action>, t: nat)
    requires Legal(INITIAL, acts)
    requires t in Exec(INITIAL, acts).callers && Exec(INITIAL, acts).callers[t].Waiting?
    requires PastDrain(Exec(INITIAL, acts).task)
    ensures var s := Exec(INITIAL, acts);
            var n := s.callers[t].seqNo;
            n in s.admin.outcomes || (n in s.admin.sentOn && s.admin.sentOn[n] == s.task.link)
  {
    AdminRun(INITIAL, acts);
  }

  lemma OutcomeStep(s: State, a: Action, n: nat)
    requires Enabled(s, a) && Numbered(s.admin) && n in s.admin.outcomes
    ensures n in Apply(s, a).admin.outcomes && Apply(s, a).admin.outcomes[n] == s.admin.outcomes[n]
  {
  }

  /** A request once resolved keeps its outcome: a late or repeated response for
      the same number is ignored. */
  lemma {:induction false} ResolvedOnce(s: State, acts: seq<Action>, n: nat)
    requires Legal(s, acts) && Numbered(s.admin) && Owned(s) && n in s.admin.outcomes
    ensures n in Exec(s, acts).admin.outcomes && Exec(s, acts).admin.outcomes[n] == s.admin.outcomes[n]
    decreases |acts|
  {
    if acts == [] {
    } else {
      NumberedStep(s, acts[0]);
      OwnedStep(s, acts[0]);
      OutcomeStep(s, acts[0], n);
      ResolvedOnce(Apply(s, acts[0]), acts[1..], n);
    }
  }

  // ---------------------------------------------------------------------
  // What a dropped link does to requests in flight

  /** Dropping the link fails nothing: in every reachable state whose link can be
      dropped, every pending request stays pending and unresolved. */
  lemma DropFailsNothing(acts: seq<Action>, n: nat)
    requires Legal(INITIAL, acts) && Enabled(Exec(INITIAL, acts), Link(Clear)) && n in Exec(INITIAL, acts).admin.pending
    ensures var v := Apply(Exec(INITIAL, acts), Link(Clear));
            n in v.admin.pending && n !in v.admin.outcomes
  {
    AdminRun(INITIAL, acts);
  }

  /** Steps that end request `n` otherwise: its response, or its caller giving up. */
  predicate Settles(s: State, a: Action, n: nat) {
    || (a.Link? && a.la.Response? && a.la.seqNo == n)
    || (a.Call? && a.ca.Retract? && CallerEnabled(s, a.caller, a.ca) && s.callers[a.caller].seqNo == n)
  }

  /** A drain comes before anything else ends request `n`. */
  predicate DrainedFirst(s: State, acts: seq<Action>, n: nat)
    requires Legal(s, acts)
    decreases |acts|
  {
    acts != [] &&
    (acts[0] == Link(Drain) || (!Settles(s, acts[0], n) && DrainedFirst(Apply(s, acts[0]), acts[1..], n)))
  }

  predicate GivenUp(a: Admin, n: nat) {
    n < a.next && n !in a.pending && n !in a.outcomes
  }

  lemma {:induction false} GivenUpForGood(s: State, acts: seq<Action>, n: nat)
    requires Legal(s, acts) && GivenUp(s.admin, n)
    ensures GivenUp(Exec(s, acts).admin, n)
    decreases |acts|
  {
    if acts == [] {
    } else {
      GivenUpStep(s, acts[0], n);
      GivenUpForGood(Apply(s, acts[0]), acts[1..], n);
    }
  }

  lemma GivenUpStep(s: State, a: Action, n: nat)
    requires Enabled(s, a) && GivenUp(s.admin, n)
    ensures GivenUp(Apply(s, a).admin, n)
  {
  }

  /** What one step does to a pending request. */
  lemma PendingStep(s: State, a: Action, n: nat)
    requires Enabled(s, a) && Numbered(s.admin) && n in s.admin.pending
    ensures var v := Apply(s, a).admin;
            if a == Link(Drain) then n in v.outcomes && v.outcomes[n] == LinkLost
            else if !Settles(s, a, n) then n in v.pending
            else GivenUp(v, n) || (n in v.outcomes && v.outcomes[n].Answer?)
  {
  }

  lemma {:induction false} LinkLostFrom(s: State, acts: seq<Action>, n: nat)
    requires Legal(s, acts) && Numbered(s.admin) && Owned(s) && n in s.admin.pending
    ensures var v := Exec(s, acts).admin;
            (n in v.outcomes && v.outcomes[n] == LinkLost) <==> DrainedFirst(s, acts, n)
    decreases |acts|
  {
    if acts == [] {
    } else {
      var next := Apply(s, acts[0]);
      PendingStep(s, acts[0], n);
      NumberedStep(s, acts[0]);
      OwnedStep(s, acts[0]);
      if n in next.admin.pending {
        LinkLostFrom(next, acts[1..], n);
      } else if n in next.admin.outcomes {
        ResolvedOnce(next, acts[1..], n);
      } else {
        GivenUpForGood(next, acts[1..], n);
      }
    }
  }

  /** From every reachable state, over every further run: a pending request fails with
      a lost link if and only if the drain of a fresh link comes before its response
      and before its caller gives up. The drop itself plays no part. */
  lemma LinkLostExactly(before: seq<Action>, acts: seq<Action>, n: nat)
    requires Legal(INITIAL, before) && Legal(Exec(INITIAL, before), acts)
    requires n in Exec(INITIAL, before).admin.pending
    ensures var s := Exec(INITIAL, before);
            var v := Exec(s, acts).admin;
            (n in v.outcomes && v.outcomes[n] == LinkLost) <==> DrainedFirst(s, acts, n)
  {
    AdminRun(INITIAL, before);
    LinkLostFrom(Exec(INITIAL, before), acts, n);
  }

  /** A run in which the link dropped and the caller is still waiting. */
  lemma DropLeavesRequestWaiting() returns (acts: seq<Action>)
    ensures Legal(INITIAL, acts)
    ensures var s := Exec(INITIAL, acts);
            s.task.Idle? && s.callers == map[0 := Waiting(0)] && 0 in s.admin.pending && 0 !in s.admin.outcomes
  {
    acts := FirstLinkServes();
    Extend(INITIAL, acts, Call(0, Request));
    acts := acts + [Call(0, Request)];
    Extend(INITIAL, acts, Call(0, SendRequest(true)));
    acts := acts + [Call(0, SendRequest(true))];
    Extend(INITIAL, acts, Link(Clear));
    acts := acts + [Link(Clear)];
  }
}
