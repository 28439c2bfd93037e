/** The relay client (src/infra/relay_client.rs): one link task that dials,
    registers and serves links one after another, and any number of caller
    threads that record watch interests, declare them on whatever link is
    installed, and send admin requests. Every lock section and every send is one
    step. */
module LinkClient {
  import F = Frames

  const MAX_NODE_ID_LEN := 256

  datatype Sent = Register | Watch(node: string) | AdminRequest(seqNo: nat) | Other

  /** One `send_control` on a link and whether the link's queue took the frame. */
  datatype Attempt = Attempt(frame: Sent, taken: bool)

  /** What `send_control` may answer: an overlong node id is always refused; any
      other frame may still be refused by a full or closed queue. */
  predicate MayAnswer(frame: Sent, taken: bool) {
    taken && frame.Watch? ==> F.Utf8Len(frame.node) <= MAX_NODE_ID_LEN
  }

  /** Where the link task is; `link` indexes the links dialed so far. */
  datatype Task =
    | Idle
    | Spawned(link: nat)
    | Registered(link: nat)
    | Installed(link: nat)
    | Drained(link: nat)
    | Redeclaring(link: nat, todo: set<string>)
    | Serving(link: nat)

  datatype Caller =
    | Committed(node: string)  // recorded the interest, will declare it next
    | Requesting(seqNo: nat)   // entered the pending map, will send next
    | Retracting(seqNo: nat)   // the send failed, will leave the pending map next
    | Waiting(seqNo: nat)

  datatype Outcome = Answer(body: string) | LinkLost

  /** `sentOn` remembers the link each request went out on. */
  datatype Admin = Admin(next: nat, pending: set<nat>, sentOn: map<nat, nat>, outcomes: map<nat, Outcome>)

  datatype State = State(
    interests: set<string>,
    slot: F.Option<nat>,
    links: seq<seq<Attempt>>,
    task: Task,
    callers: map<nat, Caller>,
    admin: Admin)

  const INITIAL := State({}, F.None, [], Idle, map[], Admin(0, {}, map[], map[]))

  datatype LinkAction =
    | Dial
    | SendRegister(taken: bool)
    | Install
    | Drain
    | Snapshot
    | Redeclare(node: string, taken: bool)
    | Serve
    | Response(seqNo: nat, body: string)
    | Clear

  datatype CallerAction =
    | RecordWatch(node: string)
    | RecordOpen(node: string)
    | Declare(taken: bool)
    | Request
    | SendRequest(taken: bool)
    | Retract
    | Return

  datatype Action =
    | Link(la: LinkAction)
    | Call(caller: nat, ca: CallerAction)
    | Background(link: nat, taken: bool) // heartbeats, labels, stream opens

  function Record(links: seq<seq<Attempt>>, link: nat, frame: Sent, taken: bool): seq<seq<Attempt>> {
    if link < |links| then links[link := links[link] + [Attempt(frame, taken)]] else links
  }

  predicate LinkEnabled(s: State, a: LinkAction) {
    match a
    case Dial => s.task.Idle?
    case SendRegister(taken) => s.task.Spawned?
    case Install => s.task.Registered?
    case Drain => s.task.Installed?
    case Snapshot => s.task.Drained?
    case Redeclare(node, taken) =>
      s.task.Redeclaring? && node in s.task.todo && MayAnswer(Watch(node), taken)
    case Serve => s.task.Redeclaring? && s.task.todo == {}
    case Response(_, _) => s.task.Serving?
    case Clear => s.task.Serving?
  }

  function LinkStep(s: State, a: LinkAction): State
    requires LinkEnabled(s, a)
  {
    match a
    case Dial => s.(task := Spawned(|s.links|), links := s.links + [[]])
    case SendRegister(taken) =>
      s.(links := Record(s.links, s.task.link, Register, taken),
         task := if taken then Registered(s.task.link) else Idle)
    case Install => s.(slot := F.Some(s.task.link), task := Installed(s.task.link))
    case Drain => s.(admin := FailPending(s.admin), task := Drained(s.task.link))
    case Snapshot => s.(task := Redeclaring(s.task.link, s.interests))
    case Redeclare(node, taken) =>
      s.(links := Record(s.links, s.task.link, Watch(node), taken),
         task := Redeclaring(s.task.link, s.task.todo - {node}))
    case Serve => s.(task := Serving(s.task.link))
    case Response(seqNo, body) => s.(admin := Complete(s.admin, seqNo, body))
    case Clear => s.(slot := F.None, task := Idle)
  }

  function FailPending(a: Admin): Admin {
    a.(pending := {}, outcomes := a.outcomes + map n | n in a.pending :: LinkLost)
  }

  function Complete(a: Admin, seqNo: nat, body: string): Admin {
    if seqNo !in a.pending then a
    else a.(pending := a.pending - {seqNo}, outcomes := a.outcomes[seqNo := Answer(body)])
  }

  /** A repeated `watch` declares nothing; `open_stream` always declares. */
  predicate CallerEnabled(s: State, t: nat, a: CallerAction) {
    match a
    case RecordWatch(_) => t !in s.callers
    case RecordOpen(_) => t !in s.callers
    case Declare(taken) => t in s.callers && s.callers[t].Committed? && MayAnswer(Watch(s.callers[t].node), taken)
    case Request => t !in s.callers
    case SendRequest(taken) => t in s.callers && s.callers[t].Requesting?
    case Retract => t in s.callers && s.callers[t].Retracting?
    case Return => t in s.callers && s.callers[t].Waiting? && s.callers[t].seqNo in s.admin.outcomes
  }

  function CallerStep(s: State, t: nat, a: CallerAction): State
    requires CallerEnabled(s, t, a)
  {
    match a
    case RecordWatch(node) =>
      s.(interests := s.interests + {node},
         callers := if node in s.interests then s.callers else s.callers[t := Committed(node)])
    case RecordOpen(node) => s.(interests := s.interests + {node}, callers := s.callers[t := Committed(node)])
    case Declare(taken) =>
      s.(links := if s.slot.None? then s.links
                  else Record(s.links, s.slot.value, Watch(s.callers[t].node), taken),
         callers := s.callers - {t})
    case Request =>
      s.(admin := s.admin.(next := s.admin.next + 1, pending := s.admin.pending + {s.admin.next}),
         callers := s.callers[t := Requesting(s.admin.next)])
    case SendRequest(taken) =>
      var n := s.callers[t].seqNo;
      if s.slot.None? then s.(callers := s.callers[t := Retracting(n)])
      else
        s.(links := Record(s.links, s.slot.value, AdminRequest(n), taken),
           admin := if taken then s.admin.(sentOn := s.admin.sentOn[n := s.slot.value]) else s.admin,
           callers := s.callers[t := if taken then Waiting(n) else Retracting(n)])
    case Retract =>
      s.(admin := s.admin.(pending := s.admin.pending - {s.callers[t].seqNo}), callers := s.callers - {t})
    case Return => s.(callers := s.callers - {t})
  }

  /** Frames that other holders of an opener put on a link they got from the slot. */
  predicate Enabled(s: State, a: Action) {
    match a
    case Link(la) => LinkEnabled(s, la)
    case Call(t, ca) => CallerEnabled(s, t, ca)
    case Background(link, _) => link < |s.links| && s.links[link] != [] && s.links[link][0].taken
  }

  function Apply(s: State, a: Action): State
    requires Enabled(s, a)
  {
    match a
    case Link(la) => LinkStep(s, la)
    case Call(t, ca) => CallerStep(s, t, ca)
    case Background(link, taken) => s.(links := Record(s.links, link, Other, taken))
  }

  predicate Legal(s: State, acts: seq<Action>)
    decreases |acts|
  {
    acts == [] || (Enabled(s, acts[0]) && Legal(Apply(s, acts[0]), acts[1..]))
  }

  function Exec(s: State, acts: seq<Action>): State
    requires Legal(s, acts)
    decreases |acts|
  {
    if acts == [] then s else Exec(Apply(s, acts[0]), acts[1..])
  }
}
