/** The sensor message pipeline as interleaved atomic steps: any number of calls of the producer function
    in progress at once, one consumer thread, a shared heap whose allocations may fail, a bounded queue of
    pointers and an event group. Freeing or reading a block that is not live sets `fault`. */
module Pipeline {
  import opened Options

  type Ptr = nat
  type Bytes = seq<bv8>

  datatype Event = Aht20Event | Bmp280Event | HrboEvent | Ld2410cEvent | As201Event

  datatype Message = Message(event: Event, data: Bytes)

  datatype Block = Raw | MsgBlock(event: Event, data: Ptr) | DataBlock(bytes: Bytes)

  /** How far one call of the producer function has come. */
  datatype Call =
    | Entered(m: Message)
    | MsgTried(m: Message, msg: Option<Ptr>)
    | BothTried(m: Message, msg: Option<Ptr>, data: Option<Ptr>)
    | Filled(m: Message, msgPtr: Ptr, dataPtr: Ptr)
    | Dropping(first: Option<Ptr>, second: Option<Ptr>)
    | DroppingLast(last: Option<Ptr>)
    | Posting(event: Event)

  datatype Consumer =
    | Waiting
    | Blocked
    | Checking
    | Fetching
    | Handling(msg: Ptr)
    | FreeingData(msg: Ptr, data: Ptr)
    | FreeingMsg(msg: Ptr)

  datatype State = State(
    heap: map<Ptr, Block>,
    queue: seq<Ptr>,
    events: set<Event>,
    calls: map<nat, Call>,
    consumer: Consumer,
    tx: Bytes,
    frames: seq<Bytes>,
    fault: bool,
    submitted: nat,
    dropped: nat,
    accepted: seq<Message>,
    dequeued: seq<Message>)

  datatype Action = Enter(t: nat, m: Message) | Malloc(t: nat, r: Option<Ptr>) | Advance(t: nat) | Consume

  const QUEUE_SIZE: nat := 100
  const TX_SIZE: nat := 109

  /** The sizes the sensors submit. */
  predicate WellFormed(m: Message) {
    match m.event
    case Aht20Event => |m.data| == 6
    case Bmp280Event => |m.data| == 7
    case HrboEvent => |m.data| == 100
    case As201Event => 2 <= |m.data| <= 100
    case Ld2410cEvent => true
  }

  function Blank(n: nat): (b: Bytes)
    ensures |b| == n && forall i :: 0 <= i < n ==> b[i] == 0
  {
    seq(n, _ => 0)
  }

  function Initial(): State {
    State(map[], [], {}, map[], Waiting, Blank(TX_SIZE), [], false, 0, 0, [], [])
  }

  // ---------- steps ----------

  function Free(s: State, p: Option<Ptr>): State {
    if p.None? then s
    else if p.value in s.heap then s.(heap := s.heap - {p.value})
    else s.(fault := true)
  }

  function Finish(s: State, t: nat): State {
    s.(calls := s.calls - {t})
  }

  function MallocStep(s: State, t: nat, r: Option<Ptr>): State {
    if t !in s.calls || (r.Some? && r.value in s.heap) then s
    else
      var s' := if r.Some? then s.(heap := s.heap[r.value := Raw]) else s;
      match s.calls[t]
      case Entered(m) => s'.(calls := s.calls[t := MsgTried(m, r)])
      case MsgTried(m, msg) => s'.(calls := s.calls[t := BothTried(m, msg, r)])
      case _ => s
  }

  function AdvanceStep(s: State, t: nat): State {
    if t !in s.calls then s
    else match s.calls[t]
      case BothTried(m, msg, data) =>
        if msg.None? || data.None? then
          s.(calls := s.calls[t := Dropping(msg, data)], dropped := s.dropped + 1)
        else if msg.value !in s.heap || data.value !in s.heap then s.(fault := true)
        else s.(heap := s.heap[data.value := DataBlock(m.data)][msg.value := MsgBlock(m.event, data.value)],
                calls := s.calls[t := Filled(m, msg.value, data.value)])
      case Filled(m, msg, data) =>
        if |s.queue| < QUEUE_SIZE then
          s.(queue := s.queue + [msg], calls := s.calls[t := Posting(m.event)], accepted := s.accepted + [m])
        else
          s.(calls := s.calls[t := Dropping(Some(data), Some(msg))], dropped := s.dropped + 1)
      case Dropping(first, second) => Free(s, first).(calls := s.calls[t := DroppingLast(second)])
      case DroppingLast(last) => Finish(Free(s, last), t)
      case Posting(event) => Finish(s.(events := s.events + {event}), t)
      case _ => s
  }

  /** Overwrite part of the transmit buffer; `None` when it would run off the end. */
  function Write(tx: Bytes, at: nat, data: Bytes): Option<Bytes> {
    if at + |data| <= |tx| then Some(tx[..at] + data + tx[at + |data|..]) else None
  }

  /** The effect of one message on the buffer, and the frame it sends if it is the triggering kind. */
  function Process(tx: Bytes, m: Message): Option<(Bytes, seq<Bytes>)>
    requires |tx| == TX_SIZE
  {
    match m.event
    case HrboEvent =>
      (match Write([0x55, 0xAA, 0x00, 0x69] + tx[4..], 8, m.data)
       case None => None
       case Some(b) => Some((b[108 := 0xA5], [b[108 := 0xA5]])))
    case Aht20Event => if |m.data| < 2 then None else Some((tx[4 := m.data[0]][5 := m.data[1]], []))
    case Bmp280Event => if |m.data| < 2 then None else Some((tx[6 := m.data[0]][7 := m.data[1]], []))
    case As201Event => (match Write(tx, 8, m.data) case None => None case Some(b) => Some((b, [])))
    case Ld2410cEvent => Some((tx, []))
  }

  predicate Readable(heap: map<Ptr, Block>, p: Ptr) {
    p in heap && heap[p].MsgBlock? && heap[p].data in heap && heap[heap[p].data].DataBlock?
  }

  function Contents(heap: map<Ptr, Block>, p: Ptr): Message
    requires Readable(heap, p)
  {
    Message(heap[p].event, heap[heap[p].data].bytes)
  }

  function ConsumeStep(s: State): State {
    match s.consumer
    case Waiting => s.(events := {}, consumer := Blocked)
    case Blocked => if s.events != {} then s.(consumer := Checking) else s
    case Checking => s.(consumer := if |s.queue| > 0 then Fetching else Waiting)
    case Fetching =>
      if |s.queue| == 0 then s
      else if !Readable(s.heap, s.queue[0]) then s.(fault := true)
      else s.(queue := s.queue[1..], consumer := Handling(s.queue[0]),
              dequeued := s.dequeued + [Contents(s.heap, s.queue[0])])
    case Handling(p) =>
      if !Readable(s.heap, p) || |s.tx| != TX_SIZE then s.(fault := true)
      else (match Process(s.tx, Contents(s.heap, p))
            case None => s.(fault := true)
            case Some(r) => s.(tx := r.0, frames := s.frames + r.1, consumer := FreeingData(p, s.heap[p].data)))
    case FreeingData(p, d) => Free(s, Some(d)).(consumer := FreeingMsg(p))
    case FreeingMsg(p) => Free(s, Some(p)).(consumer := Checking)
  }

  function Step(s: State, a: Action): State {
    match a
    case Enter(t, m) =>
      if t in s.calls || !WellFormed(m) then s
      else s.(calls := s.calls[t := Entered(m)], submitted := s.submitted + 1)
    case Malloc(t, r) => MallocStep(s, t, r)
    case Advance(t) => AdvanceStep(s, t)
    case Consume => ConsumeStep(s)
  }

  function Run(s: State, actions: seq<Action>): State {
    if actions == [] then s else Step(Run(s, actions[..|actions| - 1]), actions[|actions| - 1])
  }

  lemma {:induction false} RunConcat(s: State, a: seq<Action>, b: seq<Action>)
    ensures Run(s, a + b) == Run(Run(s, a), b)
  {
    hide Step;
    if b == [] {
      assert a + b == a;
    } else {
      assert (a + b)[..|a| + |b| - 1] == a + b[..|b| - 1];
      RunConcat(s, a, b[..|b| - 1]);
    }
  }
}
