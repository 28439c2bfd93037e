/** Relay frames and the two ordering lanes they travel in
    (src/infra/relay_mux/frame.rs). */
module Frames {

  datatype Option<+T> = None | Some(value: T)

  newtype Byte = x: int | 0 <= x < 256

  /** Largest payload a decoded frame can carry. */
  const MAX_FRAME_PAYLOAD: nat := 16 * 1024

  datatype Frame =
    | Open(stream: nat)
    | Close(stream: nat)
    | Data(stream: nat, payload: seq<Byte>)
    | Window(stream: nat, credit: nat)
    | Register(nodeId: string)
    | Unregister
    | Heartbeat
    | OpenStream(stream: nat, targetNodeId: string)
    | Error(stream: nat, code: nat, message: string)
    | CloseStream(stream: nat)
    | Enroll(token: string)
    | EnrollResponse(fingerprint: string)
    | Presence(nodeId: string, online: bool)
    | Watch(nodeId: string)
    | AdminRequest(seqNo: nat, command: string)
    | AdminResponse(seqNo: nat, body: string)
  {
    /** The stream the frame concerns; 0 for stream-less control frames. */
    function StreamId(): nat {
      match this
      case Open(s) => s
      case Close(s) => s
      case Data(s, _) => s
      case Window(s, _) => s
      case OpenStream(s, _) => s
      case Error(s, _, _) => s
      case CloseStream(s) => s
      case _ => 0
    }

    /** Frames that must keep per-stream FIFO order. */
    predicate IsBulkOrdered() {
      Data? || Window? || Close?
    }

    /** Encoded payload bytes, header excluded. */
    function PayloadLen(): nat {
      match this
      case Data(_, payload) => |payload|
      case Window(_, _) => 8
      case Register(id) => Utf8Len(id)
      case OpenStream(_, id) => Utf8Len(id)
      case Error(_, _, message) => 2 + Utf8Len(message)
      case Enroll(token) => Utf8Len(token)
      case EnrollResponse(fingerprint) => Utf8Len(fingerprint)
      case Presence(id, _) => Utf8Len(id) + 1
      case Watch(id) => Utf8Len(id)
      case AdminRequest(_, command) => 8 + Utf8Len(command)
      case AdminResponse(_, body) => 8 + Utf8Len(body)
      case _ => 0
    }
  }

  function Utf8Len(s: string): nat {
    if s == [] then 0 else CharLen(s[0]) + Utf8Len(s[1..])
  }

  function CharLen(c: char): nat {
    var code := c as int;
    if code < 0x80 then 1 else if code < 0x800 then 2 else if code < 0x1_0000 then 3 else 4
  }

  /** A bulk-ordered frame the link can carry. */
  predicate IsBulk(f: Frame) {
    f.IsBulkOrdered() && f.PayloadLen() <= MAX_FRAME_PAYLOAD
  }

  /** The unit within which order is promised: one lane per stream for
      bulk-ordered frames, one lane for everything else. */
  datatype Lane = Stream(id: nat) | Control

  predicate InLane(f: Frame, lane: Lane) {
    match lane
    case Stream(id) => f.IsBulkOrdered() && f.StreamId() == id
    case Control => !f.IsBulkOrdered()
  }

  /** The frames of `q` that travel in `lane`, in order. */
  function Select(q: seq<Frame>, lane: Lane): (r: seq<Frame>)
    ensures forall f :: f in r ==> InLane(f, lane)
  {
    if q == [] then []
    else if InLane(q[0], lane) then [q[0]] + Select(q[1..], lane)
    else Select(q[1..], lane)
  }

  lemma {:induction false} SelectConcat(a: seq<Frame>, b: seq<Frame>, lane: Lane)
    ensures Select(a + b, lane) == Select(a, lane) + Select(b, lane)
  {
    if a == [] {
      assert a + b == b;
    } else {
      assert (a + b)[1..] == a[1..] + b;
      SelectConcat(a[1..], b, lane);
    }
  }

  lemma SelectOne(f: Frame, lane: Lane)
    ensures Select([f], lane) == if InLane(f, lane) then [f] else []
  {
  }

  lemma {:induction false} SelectAll(q: seq<Frame>, lane: Lane)
    requires forall f :: f in q ==> InLane(f, lane)
    ensures Select(q, lane) == q
  {
    if q == [] {
    } else {
      SelectAll(q[1..], lane);
    }
  }

  lemma {:induction false} SelectNone(q: seq<Frame>, lane: Lane)
    requires forall f :: f in q ==> !InLane(f, lane)
    ensures Select(q, lane) == []
  {
    if q == [] {
    } else {
      SelectNone(q[1..], lane);
    }
  }

  /** Total payload bytes of a queue. */
  function Bytes(q: seq<Frame>): nat {
    if q == [] then 0 else q[0].PayloadLen() + Bytes(q[1..])
  }

  lemma {:induction false} BytesConcat(a: seq<Frame>, b: seq<Frame>)
    ensures Bytes(a + b) == Bytes(a) + Bytes(b)
  {
    if a == [] {
      assert a + b == b;
    } else {
      assert (a + b)[1..] == a[1..] + b;
      BytesConcat(a[1..], b);
    }
  }

  lemma BytesSplit(q: seq<Frame>, n: nat)
    requires n <= |q|
    ensures Bytes(q) == Bytes(q[..n]) + Bytes(q[n..])
  {
    BytesConcat(q[..n], q[n..]);
    assert q == q[..n] + q[n..];
  }
}
