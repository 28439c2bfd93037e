/** Ids used more than once: nothing in the relay stops an opener from reusing the id of
    a stream that it closed, and a frame of the old stream may still be on its way
    (src/infra/relay_link.rs). */
module ForwardingReuse {
  import opened Frames
  import opened Forwarding
  import opened ForwardingRoutes
  import R = Routing
  import S = Scheduler

  ghost function OnWire(r: Relay, dst: R.RouteKey): seq<Frame>
    requires dst.connection in r.egress
  {
    Select(r.egress[dst.connection].writer.wire, Stream(dst.stream))
  }

  /** In every run, every id opened at most `uses` times carries the frames routed to it
      in the order they were read. */
  ghost predicate InReadingOrder(cfg: S.Config, uses: nat) {
    forall acts, dst: R.RouteKey ::
      Legal(cfg, EMPTY, acts) && dst.connection in Exec(cfg, EMPTY, acts).egress
      && Opened(Exec(cfg, EMPTY, acts), dst) <= uses ==>
        var r := Exec(cfg, EMPTY, acts);
        OnWire(r, dst) <= RemapAll(Routed(r, dst), dst.stream)
  }

  const REUSED := R.RouteKey(0, 1)

  const FRAME := Data(1, [])

  /** One scheduler step of link `c`, whose scheduler is in state `s`. */
  lemma Advance(cfg: S.Config, acts: seq<Action>, r: Relay, c: nat, s: S.State, step: S.Action)
      returns (longer: seq<Action>)
    requires c in r.egress && Reaches(cfg, acts, r.(egress := r.egress[c := s]))
    requires S.IsInternal(step) && S.Enabled(cfg, s, step)
    ensures Reaches(cfg, longer, r.(egress := r.egress[c := S.Apply(cfg, s, step)]))
  {
    var t;
    longer, t := Then(cfg, acts, r.(egress := r.egress[c := s]), Schedule(c, step));
    assert r.egress[c := s][c := S.Apply(cfg, s, step)] == r.egress[c := S.Apply(cfg, s, step)];
  }

  /** The consumer takes the frame in, and the writer comes to its pass. */
  lemma TakenIn(cfg: S.Config, acts: seq<Action>, r: Relay) returns (longer: seq<Action>, s: S.State)
    requires S.ValidConfig(cfg) && 0 in r.egress && Reaches(cfg, acts, r)
    requires r.egress[0] == S.INITIAL.(ingress := S.INITIAL.ingress.(bulk := [FRAME], accepted := [FRAME]))
    ensures Reaches(cfg, longer, r.(egress := r.egress[0 := s]))
    ensures s.ingress == S.INITIAL.ingress.(accepted := [FRAME]) && s.writer == S.INITIAL.writer.(at := S.Passing(false))
    ensures s.shared.buckets == map[1 := S.Bucket([FRAME], 0, 0, 0)]
  {
    s := r.egress[0];
    assert r == r.(egress := r.egress[0 := s]);
    longer := Advance(cfg, acts, r, 0, s, S.Consume(S.ReceiveBulk));
    s := S.Apply(cfg, s, S.Consume(S.ReceiveBulk));
    longer := Advance(cfg, longer, r, 0, s, S.Consume(S.Enqueue));
    s := S.Apply(cfg, s, S.Consume(S.Enqueue));
    assert [] + [FRAME] == [FRAME];
    longer := Advance(cfg, longer, r, 0, s, S.Consume(S.NotifyWork));
    s := S.Apply(cfg, s, S.Consume(S.NotifyWork));
    longer := Advance(cfg, longer, r, 0, s, S.Write(S.DrainPriority));
    s := S.Apply(cfg, s, S.Write(S.DrainPriority));
    longer := Advance(cfg, longer, r, 0, s, S.Write(S.PriorityWritten));
    s := S.Apply(cfg, s, S.Write(S.PriorityWritten));
  }

  lemma WrittenOut(cfg: S.Config, acts: seq<Action>, r: Relay, s: S.State) returns (longer: seq<Action>, t: S.State)
    requires 0 in r.egress && Reaches(cfg, acts, r.(egress := r.egress[0 := s]))
    requires s.writer == S.INITIAL.writer.(at := S.Passing(false))
    requires s.shared.buckets == map[1 := S.Bucket([FRAME], 0, 0, 0)]
    ensures Reaches(cfg, longer, r.(egress := r.egress[0 := t]))
    ensures t.ingress == s.ingress && t.writer.wire == [FRAME]
  {
    assert [1][1..] == [] && S.PassBatch(s.shared.buckets, [1], cfg.roundBudget) == [FRAME];
    longer := Advance(cfg, acts, r, 0, s, S.Write(S.RoundRobin([1])));
    t := S.Apply(cfg, s, S.Write(S.RoundRobin([1])));
    longer := Advance(cfg, longer, r, 0, t, S.Write(S.NotifySpace));
    t := S.Apply(cfg, t, S.Write(S.NotifySpace));
    longer := Advance(cfg, longer, r, 0, t, S.Write(S.WriteFrame));
    t := S.Apply(cfg, t, S.Write(S.WriteFrame));
  }

  /** Link 0 opens stream 1 to link 1, and link 1 closes its side. */
  lemma OldStream(cfg: S.Config) returns (acts: seq<Action>, r: Relay)
    ensures Reaches(cfg, acts, r) && r.dead == {} && Opened(r, REUSED) == 1 && Opens(r, 2) == 0
    ensures R.Teardown(r.legs, REUSED) == map[]
    ensures r.tasks == map[0 := Reading, 1 := Queueing(R.RouteKey(1, 2), REUSED, 0, Close(1)), 2 := Reading]
    ensures r.egress == map[0 := S.INITIAL, 1 := S.INITIAL, 2 := S.INITIAL]
    ensures Routed(r, REUSED) == [Read(R.RouteKey(1, 2), Close(2))]
  {
    acts, r := ThreeLinks(cfg);
    acts, r := LookUpAndOpen(cfg, acts, r, REUSED, 1);
    acts, r := Then(cfg, acts, r, ReadClose(1, Close(2)));
  }

  /** While link 1 still holds that close, link 0 ends the stream and opens stream 1
      again, to link 2. */
  lemma OpenedTwice(cfg: S.Config) returns (acts: seq<Action>, r: Relay)
    ensures Reaches(cfg, acts, r) && r.dead == {} && Opened(r, REUSED) == 2
    ensures r.legs == map[REUSED := R.RouteLeg(R.RouteKey(2, 2), 2, false), R.RouteKey(2, 2) := R.RouteLeg(REUSED, 0, false)]
    ensures r.tasks == map[0 := Reading, 1 := Queueing(R.RouteKey(1, 2), REUSED, 0, Close(1)), 2 := Reading]
    ensures r.egress == map[0 := S.INITIAL, 1 := S.INITIAL, 2 := S.INITIAL]
    ensures Routed(r, REUSED) == [Read(R.RouteKey(1, 2), Close(2))]
  {
    acts, r := OldStream(cfg);
    acts, r := Then(cfg, acts, r, ReadCloseStream(0, 1));
    acts, r := LookUpAndOpen(cfg, acts, r, REUSED, 2);
  }

  /** Then link 2 sends data: link 0 gets it, and after it the close of the old stream. */
  lemma OldCloseEndsNewStream(cfg: S.Config) returns (acts: seq<Action>, r: Relay)
    requires S.ValidConfig(cfg)
    ensures Reaches(cfg, acts, r) && Opened(r, REUSED) == 2 && 0 in r.egress
    ensures Routed(r, REUSED) == [Read(R.RouteKey(1, 2), Close(2)), Read(R.RouteKey(2, 2), Data(2, []))]
    ensures r.egress[0].writer.wire == [FRAME] && r.egress[0].ingress.bulk == [Close(1)]
  {
    acts, r := OpenedTwice(cfg);
    acts, r := Then(cfg, acts, r, ReadData(2, Data(2, [])));
    acts, r := Then(cfg, acts, r, Queue(2));
    assert [] + [FRAME] == [FRAME];
    var s, before := r.egress[0], r;
    acts, s := TakenIn(cfg, acts, before);
    acts, s := WrittenOut(cfg, acts, before, s);
    r := before.(egress := before.egress[0 := s]);
    acts, r := Then(cfg, acts, r, Queue(1));
  }

  /** Reading order is kept for ids opened at most once, and for no larger number. */
  lemma InReadingOrderExactly(cfg: S.Config, uses: nat)
    requires S.ValidConfig(cfg)
    ensures InReadingOrder(cfg, uses) <==> uses <= 1
  {
    if uses <= 1 {
      forall acts, dst: R.RouteKey | Legal(cfg, EMPTY, acts) && dst.connection in Exec(cfg, EMPTY, acts).egress
          && Opened(Exec(cfg, EMPTY, acts), dst) <= uses
        ensures var r := Exec(cfg, EMPTY, acts); OnWire(r, dst) <= RemapAll(Routed(r, dst), dst.stream)
      {
        EndToEnd(cfg, acts, dst);
      }
    } else {
      var acts, r := OldCloseEndsNewStream(cfg);
      assert OnWire(r, REUSED)[0] != RemapAll(Routed(r, REUSED), 1)[0];
    }
  }
}
