/** What the relay client's state says about its run: which interests are recorded, how
    requests are numbered, when a caller gets back, how a fresh link comes into service,
    and which declarations the relay can read at all. */
module LinkClientRuns {
  import F = Frames
  import opened LinkClient
  import opened LinkClientWatch
  import opened LinkClientAdmin

  // ---------------------------------------------------------------------
  // Interests and numbers

  /** A caller watches this node or opens a stream to it. */
  predicate Wants(a: Action, node: string) {
    a.Call? && (a.ca == RecordWatch(node) || a.ca == RecordOpen(node))
  }

  predicate IsRequest(a: Action) {
    a.Call? && a.ca.Request?
  }

  function Requests(acts: seq<Action>): nat {
    if acts == [] then 0 else (if IsRequest(acts[0]) then 1 else 0) + Requests(acts[1..])
  }

  lemma InterestStep(s: State, a: Action, node: string)
    requires Enabled(s, a)
    ensures node in Apply(s, a).interests <==> node in s.interests || Wants(a, node)
  {
  }

  lemma {:induction false} InterestsFrom(s: State, acts: seq<Action>, node: string)
    requires Legal(s, acts)
    ensures node in Exec(s, acts).interests <==> node in s.interests || exists i :: 0 <= i < |acts| && Wants(acts[i], node)
    decreases |acts|
  {
    if acts == [] {
    } else {
      InterestStep(s, acts[0], node);
      InterestsFrom(Apply(s, acts[0]), acts[1..], node);
      if i :| 0 <= i < |acts| && Wants(acts[i], node) {
        assert i == 0 || acts[1..][i - 1] == acts[i];
      }
      if i :| 0 <= i < |acts[1..]| && Wants(acts[1..][i], node) {
        assert acts[i + 1] == acts[1..][i];
      }
    }
  }

  /** Over every run, the interests recorded are exactly the nodes that some caller
      watched or opened a stream to, for good. */
  lemma InterestsExactly(acts: seq<Action>, node: string)
    requires Legal(INITIAL, acts)
    ensures node in Exec(INITIAL, acts).interests <==> exists i :: 0 <= i < |acts| && Wants(acts[i], node)
  {
    InterestsFrom(INITIAL, acts, node);
  }

  lemma NumberStep(s: State, a: Action)
    requires Enabled(s, a)
    ensures Apply(s, a).admin.next == s.admin.next + if IsRequest(a) then 1 else 0
    ensures IsRequest(a) ==> Apply(s, a).callers[a.caller] == Requesting(s.admin.next)
  {
  }

  lemma {:induction false} NumbersFrom(s: State, acts: seq<Action>)
    requires Legal(s, acts)
    ensures Exec(s, acts).admin.next == s.admin.next + Requests(acts)
    decreases |acts|
  {
    if acts == [] {
    } else {
      NumberStep(s, acts[0]);
      NumbersFrom(Apply(s, acts[0]), acts[1..]);
    }
  }

  /** The request made after `acts` is numbered by how many were made before it. */
  lemma RequestsAreNumbered(acts: seq<Action>, t: nat)
    requires Legal(INITIAL, acts) && Enabled(Exec(INITIAL, acts), Call(t, Request))
    ensures var s := Apply(Exec(INITIAL, acts), Call(t, Request));
            t in s.callers && s.callers[t] == Requesting(Requests(acts)) && Requests(acts) in s.admin.pending
  {
    NumbersFrom(INITIAL, acts);
  }

  // ---------------------------------------------------------------------
  // A caller gets back with an outcome, and only then

  lemma WaitStep(s: State, a: Action, t: nat, n: nat)
    requires Enabled(s, a) && t in s.callers && s.callers[t] == Waiting(n)
    ensures n in s.admin.outcomes || (t in Apply(s, a).callers && Apply(s, a).callers[t] == Waiting(n))
  {
  }

  /** Over every run, a caller waiting for an answer waits until its request has an
      outcome; and as soon as it has one the caller can return. */
  lemma {:induction false} WaitsForOutcome(s: State, acts: seq<Action>, t: nat, n: nat)
    requires Legal(s, acts) && Numbered(s.admin) && Owned(s) && t in s.callers && s.callers[t] == Waiting(n)
    ensures var v := Exec(s, acts); var waits := t in v.callers && v.callers[t] == Waiting(n);
            && (waits || n in v.admin.outcomes)
            && (waits ==> (Enabled(v, Call(t, Return)) <==> n in v.admin.outcomes))
    decreases |acts|
  {
    if n in s.admin.outcomes {
      ResolvedOnce(s, acts, n);
    } else if acts == [] {
    } else {
      WaitStep(s, acts[0], t, n);
      NumberedStep(s, acts[0]);
      OwnedStep(s, acts[0]);
      WaitsForOutcome(Apply(s, acts[0]), acts[1..], t, n);
    }
  }

  // ---------------------------------------------------------------------
  // A registered link comes into service

  predicate IsSetup(a: Action) {
    a.Link? && (a.la.Install? || a.la.Drain? || a.la.Snapshot? || a.la.Redeclare? || a.la.Serve?)
  }

  predicate InSetup(task: Task) {
    task.Registered? || task.Installed? || task.Drained? || task.Redeclaring?
  }

  /** The number of setup steps left. */
  function SetupLeft(s: State): nat {
    match s.task
    case Registered(_) => |s.interests| + 4
    case Installed(_) => |s.interests| + 3
    case Drained(_) => |s.interests| + 2
    case Redeclaring(_, todo) => |todo| + 1
    case _ => 0
  }

  lemma SetupStep(s: State, a: Action)
    requires Enabled(s, a) && IsSetup(a)
    ensures SetupLeft(Apply(s, a)) == SetupLeft(s) - 1
    ensures InSetup(Apply(s, a).task) || Apply(s, a).task.Serving?
    ensures Apply(s, a).task.link == s.task.link && Apply(s, a).interests == s.interests
  {
  }

  lemma SetupGoesOn(s: State) returns (a: Action)
    requires InSetup(s.task)
    ensures IsSetup(a) && Enabled(s, a)
  {
    match s.task
    case Registered(_) => a := Link(Install);
    case Installed(_) => a := Link(Drain);
    case Drained(_) => a := Link(Snapshot);
    case Redeclaring(_, todo) =>
      if todo == {} {
        a := Link(Serve);
      } else {
        var node :| node in todo;
        a := Link(Redeclare(node, false));
      }
  }

  predicate AllSetup(acts: seq<Action>) {
    forall i :: 0 <= i < |acts| ==> IsSetup(acts[i])
  }

  lemma {:induction false} SetupFrom(s: State, acts: seq<Action>)
    requires Legal(s, acts) && AllSetup(acts) && InSetup(s.task)
    ensures var v := Exec(s, acts);
            && SetupLeft(v) == SetupLeft(s) - |acts| && (InSetup(v.task) || v.task.Serving?)
            && v.task.link == s.task.link && v.interests == s.interests
    decreases |acts|
  {
    if acts == [] {
    } else {
      SetupStep(s, acts[0]);
      if acts[1..] == [] {
        assert Exec(s, acts) == Apply(s, acts[0]);
      } else {
        assert Enabled(Apply(s, acts[0]), acts[1]);
        SetupFrom(Apply(s, acts[0]), acts[1..]);
      }
    }
  }

  /** From every reachable state in which a link has registered, whatever interests there
      are and whatever its queue answers: the link task alone brings it into service in
      exactly one step per interest and four more, no run of it gets stuck before, and
      then every interest has been offered to that link or a caller is about to. */
  lemma LinkComesIntoService(before: seq<Action>, acts: seq<Action>, node: string)
    requires Legal(INITIAL, before) && Exec(INITIAL, before).task.Registered?
    requires Legal(Exec(INITIAL, before), acts) && AllSetup(acts)
    ensures var s := Exec(INITIAL, before); var v := Exec(s, acts);
            && |acts| <= |s.interests| + 4
            && (|acts| < |s.interests| + 4 ==> exists a :: IsSetup(a) && Enabled(v, a))
            && (|acts| == |s.interests| + 4 ==>
                  && v.task == Serving(s.task.link) && v.slot == F.Some(s.task.link) && s.task.link < |v.links|
                  && (node in v.interests ==>
                        SomeoneCommitted(v.callers, node) || Attempted(v.links[s.task.link], node)))
  {
    var s := Exec(INITIAL, before);
    SetupFrom(s, acts);
    var v := Exec(s, acts);
    if InSetup(v.task) {
      var a := SetupGoesOn(v);
    }
    WatchRun(INITIAL, before);
    WatchRun(s, acts);
  }

  // ---------------------------------------------------------------------
  // What can be declared at all

  /** The queue took only node ids that fit. */
  predicate Fitting(links: seq<seq<Attempt>>) {
    forall l, i :: 0 <= l < |links| && 0 <= i < |links[l]| && links[l][i].taken && links[l][i].frame.Watch? ==>
      F.Utf8Len(links[l][i].frame.node) <= 256
  }

  lemma FittingStep(s: State, a: Action)
    requires Enabled(s, a) && Fitting(s.links)
    ensures Fitting(Apply(s, a).links)
  {
  }

  lemma {:induction false} FittingRun(s: State, acts: seq<Action>)
    requires Legal(s, acts) && Fitting(s.links)
    ensures Fitting(Exec(s, acts).links)
    decreases |acts|
  {
    if acts == [] {
    } else {
      FittingStep(s, acts[0]);
      FittingRun(Apply(s, acts[0]), acts[1..]);
    }
  }

  ghost predicate Declarable(node: string) {
    exists acts, l :: Legal(INITIAL, acts) && 0 <= l < |Exec(INITIAL, acts).links| && Watch(node) in Wire(Exec(INITIAL, acts).links[l])
  }

  /** Some run has the relay read a watch of this node if and only if its id is at most
      256 bytes long. */
  lemma DeclarableExactly(node: string)
    ensures Declarable(node) <==> F.Utf8Len(node) <= 256
  {
    if Declarable(node) {
      var acts, l :| Legal(INITIAL, acts) && 0 <= l < |Exec(INITIAL, acts).links| && Watch(node) in Wire(Exec(INITIAL, acts).links[l]);
      FittingRun(INITIAL, acts);
      WireHas(Exec(INITIAL, acts).links[l], Watch(node));
    }
    if F.Utf8Len(node) <= 256 {
      var acts := Declares(node);
    }
  }

  lemma Declares(node: string) returns (acts: seq<Action>)
    requires F.Utf8Len(node) <= 256
    ensures Legal(INITIAL, acts) && |Exec(INITIAL, acts).links| == 1 && Watch(node) in Wire(Exec(INITIAL, acts).links[0])
  {
    acts := FirstLinkServes();
    Extend(INITIAL, acts, Call(0, RecordWatch(node)));
    acts := acts + [Call(0, RecordWatch(node))];
    Extend(INITIAL, acts, Call(0, Declare(true)));
    acts := acts + [Call(0, Declare(true))];
    var log := Exec(INITIAL, acts).links[0];
    assert log == REGISTERED + [Attempt(Watch(node), true)];
    assert Attempt(Watch(node), true) in log;
    WireHas(log, Watch(node));
  }
}
